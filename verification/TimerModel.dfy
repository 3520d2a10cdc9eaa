// The timer half of src/set_run_isr.c as a value: a fixed pool of timed calls
// spread over the list being walked (timeQ), the node in hand (current), the
// nodes walked past (kept) and the newly armed ones (added).
// Ticks are 32-bit in the code; `now` counts them without wrapping.
module TimerModel {
  import opened Base
  import opened GenPool
  import opened History

  const RETRIGGER: nat := 2   // retrigger_timer, the pool's release callback
  const WRAP: int := 0x1_0000_0000
  const HALF: int := 0x8000_0000

  /** The difference of two wrapped ticks has its top bit set. */
  predicate Expired(time: int, tick: int) {
    (time - tick) % WRAP >= HALF
  }

  datatype TimedCall = TimedCall(time: nat, cb: Cb, future: int)

  /** How a timer was set: at tick setAt, `late` if that tick's walk had begun. */
  datatype Birth = Birth(cb: Cb, setAt: nat, first: nat, future: int, late: bool)

  /** Which timer a node carries, how often it has fired, when it fires next. */
  datatype Life = Life(serial: nat, fires: nat, due: nat)

  datatype Timers = Timers(
    pool: Pool, node: seq<TimedCall>, life: seq<Life>, births: seq<Birth>, home: map<nat, nat>,
    timeQ: seq<nat>, current: seq<nat>, kept: seq<nat>, added: seq<nat>, log: seq<Event>)

  // ---------------------------------------------------------------- timetables

  function Abs(x: int): nat {
    if x < 0 then -x else x
  }

  function Times(k: nat, p: nat): nat {
    if k == 0 then 0 else Times(k - 1, p) + p
  }

  lemma {:induction false} TimesIsProduct(k: nat, p: nat)
    ensures Times(k, p) == k * p
  {
    if k == 0 {
    } else {
      TimesIsProduct(k - 1, p);
    }
  }

  /** When a one-shot timer fires: the tick after its delay has passed.  A delay of
      2^31 or more already looks expired, so it fires at the next walk instead;
      2^31 itself only looks so to a walk at the tick it was set in. */
  function OneShotDue(b: Birth): nat {
    if b.first < HALF then b.setAt + b.first + 1
    else if !b.late then b.setAt
    else if b.first == HALF then b.setAt + b.first + 1
    else b.setAt + 1
  }

  /** The tick of the k-th firing. */
  function Due(b: Birth, k: nat): nat {
    if b.future == 0 then OneShotDue(b)
    else if b.future > 0 then b.setAt + Times(k, b.future + 1)
    else b.setAt + Times(k, -b.future) + 1
  }

  // --------------------------------------------------------------- operations

  ghost predicate Wf(t: Timers) {
    PoolOk(t.pool) && |t.node| == t.pool.size && |t.life| == t.pool.size
  }

  function Fresh(size: nat): Timers {
    Timers(Pool(size, {}, map[], 0), seq(size, _ => TimedCall(0, Cb(0, 0), 0)), seq(size, _ => Life(0, 0, 0)),
           [], map[], [], [], [], [], [])
  }

  /** Timer |t.births| moves into cell h; its deadline is in wrapped ticks. */
  function Armed(t: Timers, h: nat, b: Birth): Timers
    requires h < |t.node| && h < |t.life|
  {
    t.(pool := Alloc(t.pool, RETRIGGER, OWN_ADDRESS).0,
       node := t.node[h := TimedCall((b.first + b.setAt % WRAP) % WRAP, b.cb, b.future)],
       life := t.life[h := Life(|t.births|, 0, Due(b, 1))],
       births := t.births + [b], home := t.home[|t.births| := h], added := [h] + t.added)
  }

  /** _set_future_cb */
  ghost function Arm(t: Timers, cb: Cb, first: nat, future: int, now: nat, late: bool): (r: (Timers, Status))
    requires Wf(t)
    ensures Wf(r.0)
  {
    PickFindsFree(t.pool);
    match Pick(t.pool)
    case None => (t, FULL)
    case Some(h) => (Armed(t, h, Birth(cb, now, first, future, late)), OK)
  }

  ghost predicate CarriedBy(t: Timers, h: nat, r: Timers)
    requires Wf(t) && |r.life| == |t.life| && |r.node| == |t.node| && |r.births| > |t.births|
  {
    var b := r.births[|t.births|];
    && h < t.pool.size && h !in t.pool.live && r.pool.live == t.pool.live + {h} && r.added == [h] + t.added
    && r.node[h] == TimedCall((b.first + b.setAt) % WRAP, b.cb, b.future)
    && r.life[h].serial == |t.births| && r.life[h].fires == 0
    && h in r.pool.hooks && r.pool.hooks[h] == Hook(RETRIGGER, h)
    && forall g | g in t.pool.live :: r.node[g] == t.node[g] && r.life[g] == t.life[g]
  }

  /** Arming takes t to r: with no free node it answers FULL and nothing changes;
      otherwise exactly one timer is added, with this callback, delay and interval and of
      this moment, and a free node carries it in front of the new arrivals. */
  ghost predicate Arms(t: Timers, cb: Cb, first: nat, future: int, now: nat, late: bool, r: Timers, st: Status)
    requires Wf(t)
  {
    if t.pool.live == Cells(t.pool.size) then st == FULL && r == t
    else
      && st == OK && r.births == t.births + [Birth(cb, now, first, future, late)]
      && r.timeQ == t.timeQ && r.current == t.current && r.kept == t.kept && r.log == t.log && r.pool.size == t.pool.size
      && |r.life| == |t.life| && |r.node| == |t.node|
      && exists h :: CarriedBy(t, h, r)
  }

  ghost function OnCall(t: Timers, c: Call, now: nat, late: bool): (r: Timers)
    requires Wf(t)
    ensures Wf(r)
  {
    match c
    case RunLater(cb, future) => Arm(t, cb, future, 0, now, late).0
    case RunPeriodically(cb, interval) => Arm(t, cb, Abs(interval), interval, now, late).0
    case _ => t
  }

  ghost function OnCalls(t: Timers, cs: seq<UserCall>, now: nat, late: bool): (r: Timers)
    requires Wf(t)
    ensures Wf(r)
    decreases |cs|
  {
    if cs == [] then t else OnCalls(OnCall(t, cs[0], now, late), cs[1..], now, late)
  }

  /** Do_Later begins: the new arrivals are pushed onto the main stack. */
  function Splice(t: Timers): Timers {
    t.(timeQ := Reverse(t.added) + t.timeQ, added := [])
  }

  function Take(t: Timers): Timers
    requires t.timeQ != []
  {
    t.(timeQ := t.timeQ[1..], current := [t.timeQ[0]])
  }

  function Keep(t: Timers): Timers {
    t.(current := [], kept := t.current + t.kept)
  }

  /** Only Status_Interrupt cancels a repeating timer. */
  function Judge(t: Timers, status: Status): Timers
    requires t.current != []
  {
    if status == Interrupt then t.(pool := Extract(t.pool, t.current[0])) else t
  }

  /** retrigger_timer: the next deadline of a repeating timer. */
  function NextTime(n: TimedCall, now: nat): nat
    requires n.future != 0
  {
    if n.future > 0 then (n.future + now % WRAP) % WRAP else (n.time + -n.future) % WRAP
  }

  function GiveBack(t: Timers, status: Status, now: nat): Timers
    requires t.current != [] && t.current[0] < |t.node| && t.current[0] < |t.life|
    requires t.life[t.current[0]].serial < |t.births|
  {
    var h := t.current[0];
    var n := t.node[h];
    var l := t.life[h];
    var logged := t.(current := [], log := t.log + [Event(l.serial, now, n.cb, status)]);
    if h in t.pool.live && h in t.pool.hooks && n.future != 0 then
      logged.(node := t.node[h := n.(time := NextTime(n, now))],
              life := t.life[h := Life(l.serial, l.fires + 1, Due(t.births[l.serial], l.fires + 2))],
              added := [h] + t.added)
    else
      logged.(pool := Release(t.pool, h, OK).0, home := t.home - {l.serial})
  }

  /** Do_Later ends: what was walked past becomes the main stack. */
  function Settle(t: Timers): Timers {
    t.(timeQ := t.kept, kept := [])
  }

  // ---------------------------------------------------------------- invariant

  ghost predicate Conserved(t: Timers) {
    multiset(t.timeQ) + multiset(t.current) + multiset(t.kept) + multiset(t.added) == multiset(t.pool.live)
  }

  ghost predicate Hooked(t: Timers) {
    && (forall h | h in t.pool.hooks :: t.pool.hooks[h] == Hook(RETRIGGER, h))
    && (forall h | h in t.pool.live && h !in t.current :: h in t.pool.hooks)
  }

  predicate BirthOk(b: Birth) {
    b.first < WRAP && (b.future != 0 ==> b.first == Abs(b.future) && b.first < HALF)
  }

  /** Live nodes and running timers correspond one to one. */
  ghost predicate Housed(t: Timers)
    requires Wf(t)
  {
    && (forall h | h in t.pool.live :: t.life[h].serial in t.home && t.home[t.life[h].serial] == h)
    && (forall k | k in t.home :: k < |t.births| && t.home[k] in t.pool.live && t.life[t.home[k]].serial == k)
    && (forall e | e in t.log :: e.serial < |t.births|)
    && (forall b | b in t.births :: BirthOk(b))
  }

  /** A deadline one tick before the firing, close enough not to be mistaken. */
  predicate Steady(time: int, due: int, check: int) {
    time == (due + WRAP - 1) % WRAP && check <= due <= check + HALF
  }

  /** Node h, next looked at by the walk at tick check, will look expired to
      exactly the walk at its due tick. */
  ghost predicate Aimed(t: Timers, h: nat, check: nat)
    requires Wf(t) && h < t.pool.size
  {
    var n := t.node[h];
    var l := t.life[h];
    && l.serial < |t.births|
    && n.cb == t.births[l.serial].cb && n.future == t.births[l.serial].future
    && l.due == Due(t.births[l.serial], l.fires + 1)
    && (n.future == 0 ==> l.fires == 0)
    && (Steady(n.time, l.due, check) || (n.future == 0 && l.due == check && Expired(n.time, check % WRAP)))
  }

  ghost predicate AllAimed(t: Timers, q: seq<nat>, check: nat)
    requires Wf(t)
  {
    forall h | h in q :: h < t.pool.size && Aimed(t, h, check)
  }

  /** A firing after which the timer is over. */
  predicate Ends(b: Birth, e: Event) {
    b.future == 0 || e.status == Interrupt
  }

  /** The i-th firing came at its promised tick, with the callback that was set,
      and only the last can have been the end. */
  predicate Timely(f: seq<Event>, b: Birth) {
    && (forall i | 0 <= i < |f| :: f[i].at == Due(b, i + 1) && f[i].cb == b.cb)
    && (forall i | 0 <= i < |f| - 1 :: !Ends(b, f[i]))
  }

  predicate Over(f: seq<Event>, b: Birth) {
    f != [] && Ends(b, f[|f| - 1])
  }

  /** What the log says of timer k is what its birth promised, so far; and the
      timer is still housed exactly until it is over. */
  ghost predicate Story(t: Timers, k: nat)
    requires Wf(t) && k < |t.births|
  {
    var f := Of(t.log, k);
    && Timely(f, t.births[k])
    && (k in t.home <==> !Over(f, t.births[k]))
    && (k in t.home ==> t.home[k] < t.pool.size && t.life[t.home[k]].fires == |f|)
  }

  ghost predicate Stories(t: Timers)
    requires Wf(t)
  {
    forall k: nat | k < |t.births| :: Story(t, k)
  }

  /** The main stack is next looked at by the walk at tick main, the rest by the
      walk at tick rest. */
  ghost predicate TimerInv(t: Timers, main: nat, rest: nat) {
    && Wf(t) && |t.current| <= 1
    && Conserved(t) && Hooked(t) && Housed(t) && Stories(t)
    && AllAimed(t, t.timeQ, main) && AllAimed(t, t.current, main)
    && AllAimed(t, t.kept, rest) && AllAimed(t, t.added, rest)
    && (forall e | e in t.log :: e.at < rest)
  }

  lemma InvConserves(t: Timers, main: nat, rest: nat)
    requires TimerInv(t, main, rest)
    ensures Conserved(t)
  {
  }

  lemma FreshInv(size: nat, main: nat, rest: nat)
    requires size > 0
    ensures TimerInv(Fresh(size), main, rest)
  {
  }

  lemma RoomInLists(t: Timers)
    requires Wf(t) && Conserved(t)
    ensures |t.timeQ| + |t.current| + |t.kept| + |t.added| == |t.pool.live| <= t.pool.size
    ensures forall h | h in t.timeQ || h in t.current || h in t.kept || h in t.added :: h in t.pool.live && h < t.pool.size
  {
    LiveAtMost(t.pool.live, t.pool.size);
    var all := multiset(t.timeQ) + multiset(t.current) + multiset(t.kept) + multiset(t.added);
    assert |all| == |t.timeQ| + |t.current| + |t.kept| + |t.added|;
    assert |multiset(t.pool.live)| == |t.pool.live|;
    forall h | h in t.timeQ || h in t.current || h in t.kept || h in t.added ensures h in t.pool.live {
      assert h in all;
    }
  }

  /** No node is on two lists, or twice on one. */
  ghost predicate Unshared(t: Timers) {
    forall h :: (multiset(t.timeQ) + multiset(t.kept) + multiset(t.added))[h] <= 1
  }

  lemma ConservedIsUnshared(t: Timers)
    requires Conserved(t)
    ensures Unshared(t)
  {
    forall h ensures (multiset(t.timeQ) + multiset(t.kept) + multiset(t.added))[h] <= 1 {
      assert multiset(t.pool.live)[h] <= 1;
      assert (multiset(t.timeQ) + multiset(t.current) + multiset(t.kept) + multiset(t.added))[h] <= 1;
    }
  }

  /** No node occurs twice in a and b together. */
  ghost predicate Once(a: seq<nat>, b: seq<nat>) {
    forall h :: (multiset(a) + multiset(b))[h] <= 1
  }

  lemma OnceStep(a: seq<nat>, b: seq<nat>)
    requires Once(a, b) && a != []
    ensures a[0] !in a[1..] && a[0] !in b && Once(a[1..], [a[0]] + b)
  {
    assert a == [a[0]] + a[1..];
    assert (multiset(a) + multiset(b))[a[0]] <= 1;
    forall h ensures (multiset(a[1..]) + multiset([a[0]] + b))[h] <= 1 {
      assert (multiset(a) + multiset(b))[h] <= 1;
    }
  }

  lemma SplicedOnce(t: Timers)
    requires Unshared(t) && t.kept == []
    ensures Once(t.added, t.timeQ)
  {
    forall h ensures (multiset(t.added) + multiset(t.timeQ))[h] <= 1 {
      assert (multiset(t.timeQ) + multiset(t.kept) + multiset(t.added))[h] <= 1;
    }
  }

  ghost predicate Unlisted(t: Timers, h: nat) {
    h !in t.timeQ && h !in t.kept && h !in t.added
  }

  /** The cell the pool would hand out next is on no list. */
  lemma NewIsUnlisted(t: Timers)
    requires Wf(t) && Conserved(t)
    ensures Pick(t.pool).Some? ==> Unlisted(t, Pick(t.pool).value)
  {
    PickFindsFree(t.pool);
    RoomInLists(t);
  }

  /** The node in hand is on no list. */
  lemma HeldOnce(t: Timers, h: nat)
    requires Wf(t) && Conserved(t) && t.current == [h]
    ensures h !in t.timeQ && h !in t.kept && h !in t.added
  {
    assert multiset(t.current)[h] == 1;
    assert multiset(t.pool.live)[h] <= 1;
    assert (multiset(t.timeQ) + multiset(t.current) + multiset(t.kept) + multiset(t.added))[h] <= 1;
  }

  // --------------------------------------------------------------- arithmetic

  lemma SteadyExpiry(time: int, due: nat, now: nat)
    requires Steady(time, due, now)
    ensures Expired(time, now % WRAP) <==> due == now
  {
    var ahead := due - now;
    assert (time - now % WRAP) % WRAP == (ahead + WRAP - 1) % WRAP;
  }

  /** Within range, the wrapped comparison is right: expired means due. */
  lemma ExpiredIffDue(t: Timers, h: nat, now: nat)
    requires Wf(t) && h < t.pool.size && Aimed(t, h, now)
    ensures Expired(t.node[h].time, now % WRAP) <==> t.life[h].due == now
  {
    var n := t.node[h];
    var l := t.life[h];
    if Steady(n.time, l.due, now) {
      SteadyExpiry(n.time, l.due, now);
    }
  }

  /** Not expired now, hence still well aimed at the next tick. */
  lemma AimedLater(t: Timers, h: nat, now: nat)
    requires Wf(t) && h < t.pool.size && Aimed(t, h, now) && t.life[h].due != now
    ensures Aimed(t, h, now + 1)
  {
  }

  lemma ShortDelay(first: nat, now: nat)
    ensures (first + now % WRAP) % WRAP == (now + first + 1 + WRAP - 1) % WRAP
  {
  }

  lemma LongDelay(first: nat, now: nat)
    requires HALF <= first < WRAP
    ensures Expired((first + now % WRAP) % WRAP, now % WRAP)
    ensures first > HALF ==> Expired((first + now % WRAP) % WRAP, (now + 1) % WRAP)
  {
    var time := (first + now % WRAP) % WRAP;
    assert (time - now % WRAP) % WRAP == first;
    assert (time - (now + 1) % WRAP) % WRAP == first - 1;
  }

  lemma FirstDue(b: Birth)
    requires BirthOk(b) && b.first < HALF
    ensures Due(b, 1) == b.setAt + b.first + 1
  {
    assert b.future > 0 ==> Times(1, b.future + 1) == b.future + 1;
    assert b.future < 0 ==> Times(1, -b.future) == -b.future;
  }

  lemma ArmAims(b: Birth, now: nat)
    requires BirthOk(b) && b.setAt == now
    ensures var time := (b.first + now % WRAP) % WRAP;
            var check := if b.late then now + 1 else now;
            || Steady(time, Due(b, 1), check)
            || (b.future == 0 && Due(b, 1) == check && Expired(time, check % WRAP))
  {
    hide Expired;
    ShortDelay(b.first, now);
    if b.first < HALF {
      FirstDue(b);
      hide Due;
    } else {
      LongDelay(b.first, now);
    }
  }

  lemma WrapAdd(x: int, p: int)
    ensures (x % WRAP + p) % WRAP == (x + p) % WRAP
  {
  }

  lemma WrapOnce(x: int)
    ensures (x + WRAP) % WRAP == x % WRAP
  {
  }

  lemma DueStep(b: Birth, k: nat)
    requires b.future != 0
    ensures Due(b, k + 1) == Due(b, k) + (if b.future > 0 then b.future + 1 else -b.future)
  {
  }

  /** A repeating timer fired on time is aimed at its following firing. */
  lemma RetriggerAims(b: Birth, n: TimedCall, fires: nat, now: nat)
    requires BirthOk(b) && b.future != 0 && n.future == b.future
    requires now == Due(b, fires + 1) && Steady(n.time, now, now)
    ensures Steady(NextTime(n, now), Due(b, fires + 2), now + 1)
  {
    hide Due;
    DueStep(b, fires + 1);
    var due := Due(b, fires + 2);
    if b.future > 0 {
      WrapAdd(now, n.future);
      WrapOnce(now + n.future);
      assert due + WRAP - 1 == now + n.future + WRAP;
    } else {
      WrapAdd(now + WRAP - 1, -n.future);
      assert due + WRAP - 1 == now + WRAP - 1 + -n.future;
    }
  }

  // -------------------------------------------------------------- preservation

  /** The check tick of whatever is armed now. */
  function RestOf(now: nat, late: bool): nat {
    if late then now + 1 else now
  }

  /** What arming keeps of the timers that are already there. */
  ghost predicate Extends(t: Timers, r: Timers)
    requires Wf(t) && Wf(r)
  {
    && r.timeQ == t.timeQ && r.current == t.current && r.kept == t.kept && r.log == t.log
    && r.pool.size == t.pool.size && t.births <= r.births
    && forall h | h in t.pool.live ::
         h in r.pool.live && r.node[h] == t.node[h] && r.life[h] == t.life[h] && (h in r.pool.hooks <==> h in t.pool.hooks)
  }

  /** h is the cell the pool hands out next. */
  ghost predicate Handed(t: Timers, h: nat) {
    Wf(t) && Pick(t.pool) == Some(h) && h < t.pool.size && h !in t.pool.live
  }

  lemma ArmedConserves(t: Timers, h: nat, b: Birth)
    requires Handed(t, h) && Conserved(t)
    ensures Conserved(Armed(t, h, b))
  {
    MultisetOfSet(t.pool.live, h);
    assert multiset(Armed(t, h, b).added) == multiset{h} + multiset(t.added);
  }

  lemma ArmedExtends(t: Timers, h: nat, b: Birth)
    requires Handed(t, h)
    ensures Wf(Armed(t, h, b)) && Extends(t, Armed(t, h, b))
  {
    assert Armed(t, h, b).births[..|t.births|] == t.births;
  }

  lemma ArmedHouses(t: Timers, h: nat, b: Birth)
    requires Handed(t, h) && Housed(t) && BirthOk(b)
    ensures Wf(Armed(t, h, b)) && Housed(Armed(t, h, b))
  {
  }

  lemma ArmedHooks(t: Timers, h: nat, b: Birth)
    requires Handed(t, h) && Hooked(t)
    ensures Hooked(Armed(t, h, b))
  {
  }

  /** Nodes keep their aim as long as they and the births are left alone. */
  lemma AimedFrame(t: Timers, r: Timers, q: seq<nat>, check: nat)
    requires Wf(t) && Wf(r) && AllAimed(t, q, check)
    requires t.pool.size == r.pool.size && t.births <= r.births
    requires forall h | h in q && h < t.pool.size :: r.node[h] == t.node[h] && r.life[h] == t.life[h]
    ensures AllAimed(r, q, check)
  {
    forall h | h in q ensures h < r.pool.size && Aimed(r, h, check) {
      assert Aimed(t, h, check);
    }
  }

  lemma ArmedSelfAims(t: Timers, h: nat, b: Birth, now: nat)
    requires Handed(t, h) && BirthOk(b) && b.setAt == now
    ensures Wf(Armed(t, h, b)) && Aimed(Armed(t, h, b), h, RestOf(now, b.late))
  {
    ArmAims(b, now);
  }

  lemma ArmedAims(t: Timers, h: nat, b: Birth, now: nat, main: nat)
    requires Handed(t, h) && Conserved(t) && BirthOk(b) && b.setAt == now
    requires AllAimed(t, t.timeQ, main) && AllAimed(t, t.current, main)
    requires AllAimed(t, t.kept, RestOf(now, b.late)) && AllAimed(t, t.added, RestOf(now, b.late))
    ensures var r := Armed(t, h, b);
            && Wf(r) && AllAimed(r, r.timeQ, main) && AllAimed(r, r.current, main)
            && AllAimed(r, r.kept, RestOf(now, b.late)) && AllAimed(r, r.added, RestOf(now, b.late))
  {
    var r := Armed(t, h, b);
    var rest := RestOf(now, b.late);
    RoomInLists(t);
    ArmedSelfAims(t, h, b, now);
    hide Aimed, Conserved, Due;
    ArmedExtends(t, h, b);
    AimedFrame(t, r, t.timeQ, main);
    AimedFrame(t, r, t.current, main);
    AimedFrame(t, r, t.kept, rest);
    AimedFrame(t, r, t.added, rest);
  }

  lemma ArmedStories(t: Timers, h: nat, b: Birth)
    requires Handed(t, h) && Housed(t) && Stories(t)
    ensures Wf(Armed(t, h, b)) && Stories(Armed(t, h, b))
  {
    var r := Armed(t, h, b);
    OfUnborn(t.log, |t.births|);
    forall k: nat | k < |r.births| ensures Story(r, k) {
      if k < |t.births| {
        assert Story(t, k);
      }
    }
  }

  lemma ArmExact(t: Timers, cb: Cb, first: nat, future: int, now: nat, late: bool)
    requires Wf(t)
    ensures Arms(t, cb, first, future, now, late, Arm(t, cb, first, future, now, late).0, Arm(t, cb, first, future, now, late).1)
  {
    PickFindsFree(t.pool);
    if Pick(t.pool).Some? {
      AllocExact(t.pool, RETRIGGER, OWN_ADDRESS);
      WrapAdd(now, first);
      assert CarriedBy(t, Pick(t.pool).value, Arm(t, cb, first, future, now, late).0);
    }
  }

  lemma ArmKeeps(t: Timers, cb: Cb, first: nat, future: int, now: nat, late: bool, main: nat)
    requires TimerInv(t, main, RestOf(now, late)) && BirthOk(Birth(cb, now, first, future, late))
    ensures TimerInv(Arm(t, cb, first, future, now, late).0, main, RestOf(now, late))
    ensures Extends(t, Arm(t, cb, first, future, now, late).0)
    ensures Arm(t, cb, first, future, now, late).1 == if t.pool.live == Cells(t.pool.size) then FULL else OK
  {
    PickFindsFree(t.pool);
    if Pick(t.pool).Some? {
      var h := Pick(t.pool).value;
      var b := Birth(cb, now, first, future, late);
      ArmedExtends(t, h, b);
      ArmedConserves(t, h, b);
      ArmedHouses(t, h, b);
      ArmedHooks(t, h, b);
      ArmedAims(t, h, b, now, main);
      ArmedStories(t, h, b);
    }
  }

  lemma ExtendsChain(t: Timers, m: Timers, r: Timers)
    requires Wf(t) && Wf(m) && Wf(r)
    ensures Extends(t, t)
    ensures Extends(t, m) && Extends(m, r) ==> Extends(t, r)
  {
  }

  lemma CallKeeps(t: Timers, c: UserCall, now: nat, late: bool, main: nat)
    requires TimerInv(t, main, RestOf(now, late))
    ensures TimerInv(OnCall(t, c, now, late), main, RestOf(now, late))
    ensures Extends(t, OnCall(t, c, now, late))
  {
    hide Conserved, Housed, Hooked, Stories, AllAimed, Arm, Extends;
    match c {
      case RunLater(cb, future) => ArmKeeps(t, cb, future, 0, now, late, main);
      case RunPeriodically(cb, interval) => ArmKeeps(t, cb, Abs(interval), interval, now, late, main);
      case _ => ExtendsChain(t, t, t);
    }
  }

  lemma {:induction false} CallsKeep(t: Timers, cs: seq<UserCall>, now: nat, late: bool, main: nat)
    requires TimerInv(t, main, RestOf(now, late))
    ensures TimerInv(OnCalls(t, cs, now, late), main, RestOf(now, late))
    ensures Extends(t, OnCalls(t, cs, now, late))
    decreases |cs|
  {
    hide TimerInv, OnCall, Extends;
    InvBasics(t, main, RestOf(now, late));
    if cs == [] {
      ExtendsChain(t, t, t);
    } else {
      var m := OnCall(t, cs[0], now, late);
      CallKeeps(t, cs[0], now, late, main);
      CallsKeep(m, cs[1..], now, late, main);
      ExtendsChain(t, m, OnCalls(m, cs[1..], now, late));
    }
  }

  /** Moving nodes between lists tells no story anew. */
  lemma SameStories(t: Timers, r: Timers)
    requires Wf(t) && Wf(r) && Stories(t)
    requires r.log == t.log && r.births == t.births && r.home == t.home && r.life == t.life && r.pool.size == t.pool.size
    ensures Stories(r)
  {
    forall k: nat | k < |r.births| ensures Story(r, k) {
      assert Story(t, k);
    }
  }

  lemma SpliceKeeps(t: Timers, now: nat)
    requires TimerInv(t, now, now) && t.current == [] && t.kept == []
    ensures TimerInv(Splice(t), now, now + 1)
  {
    var r := Splice(t);
    assert multiset(r.timeQ) == multiset(t.added) + multiset(t.timeQ);
    SameStories(t, r);
    AimedFrame(t, r, t.added, now);
    AimedFrame(t, r, t.timeQ, now);
    forall h | h in r.timeQ ensures h < r.pool.size && Aimed(r, h, now) {
      assert h in multiset(r.timeQ);
      assert h in t.added || h in t.timeQ;
    }
  }

  lemma TakeKeeps(t: Timers, main: nat, rest: nat)
    requires TimerInv(t, main, rest) && t.timeQ != [] && t.current == []
    ensures TimerInv(Take(t), main, rest)
  {
    assert t.timeQ == [t.timeQ[0]] + t.timeQ[1..];
    SameStories(t, Take(t));
    AimedFrame(t, Take(t), t.timeQ, main);
    AimedFrame(t, Take(t), t.kept, rest);
    AimedFrame(t, Take(t), t.added, rest);
  }

  lemma KeepKeeps(t: Timers, now: nat)
    requires TimerInv(t, now, now + 1) && t.current != []
    requires t.current[0] < t.pool.size && t.life[t.current[0]].due != now
    requires t.current[0] in t.pool.hooks
    ensures TimerInv(Keep(t), now, now + 1)
  {
    assert t.current == [t.current[0]];
    AimedLater(t, t.current[0], now);
    SameStories(t, Keep(t));
    AimedFrame(t, Keep(t), t.timeQ, now);
    AimedFrame(t, Keep(t), t.kept, now + 1);
    AimedFrame(t, Keep(t), t.added, now + 1);
    AimedFrame(t, Keep(t), t.current, now + 1);
  }

  lemma SettleKeeps(t: Timers, main: nat, rest: nat)
    requires TimerInv(t, main, rest) && t.timeQ == [] && t.current == []
    ensures TimerInv(Settle(t), rest, rest)
  {
    SameStories(t, Settle(t));
    AimedFrame(t, Settle(t), t.kept, rest);
    AimedFrame(t, Settle(t), t.added, rest);
  }

  lemma JudgeKeeps(t: Timers, status: Status, main: nat, rest: nat)
    requires TimerInv(t, main, rest) && t.current != []
    ensures TimerInv(Judge(t, status), main, rest)
  {
    var r := Judge(t, status);
    SameStories(t, r);
    AimedFrame(t, r, t.timeQ, main);
    AimedFrame(t, r, t.current, main);
    AimedFrame(t, r, t.kept, rest);
    AimedFrame(t, r, t.added, rest);
  }

  /** Giving back the node in hand at its due tick. */
  ghost predicate InHand(t: Timers, h: nat, status: Status, now: nat) {
    && TimerInv(t, now, now + 1) && t.current == [h] && h in t.pool.live && h < t.pool.size
    && t.life[h].due == now
    && (h in t.pool.hooks <==> status != Interrupt)
  }

  lemma GiveBackConserves(t: Timers, h: nat, status: Status, now: nat)
    requires Wf(t) && Conserved(t) && t.current == [h] && h in t.pool.live && h < t.pool.size
    requires t.life[h].serial < |t.births|
    ensures Conserved(GiveBack(t, status, now))
  {
    HeldOnce(t, h);
    MultisetOfSet(t.pool.live, h);
  }

  lemma GiveBackWf(t: Timers, status: Status, now: nat)
    requires Wf(t) && t.current != [] && t.current[0] < t.pool.size && t.life[t.current[0]].serial < |t.births|
    ensures Wf(GiveBack(t, status, now)) && GiveBack(t, status, now).pool.size == t.pool.size
    ensures GiveBack(t, status, now).births == t.births
  {
  }

  lemma GiveBackHouses(t: Timers, h: nat, status: Status, now: nat)
    requires Wf(t) && Housed(t) && t.current == [h] && h in t.pool.live && h < t.pool.size
    ensures Wf(GiveBack(t, status, now)) && Housed(GiveBack(t, status, now))
  {
    GiveBackWf(t, status, now);
  }

  lemma GiveBackHooks(t: Timers, h: nat, status: Status, now: nat)
    requires Wf(t) && Hooked(t) && t.current == [h] && h in t.pool.live && h < t.pool.size
    requires t.life[h].serial < |t.births|
    ensures Hooked(GiveBack(t, status, now))
  {
  }

  lemma RetriggeredAims(t: Timers, h: nat, now: nat, status: Status)
    requires Wf(t) && t.current == [h] && h < t.pool.size && Aimed(t, h, now) && t.life[h].due == now
    requires t.life[h].serial < |t.births| && BirthOk(t.births[t.life[h].serial])
    requires h in t.pool.live && h in t.pool.hooks && t.node[h].future != 0
    ensures Wf(GiveBack(t, status, now)) && Aimed(GiveBack(t, status, now), h, now + 1)
  {
    RetriggerAims(t.births[t.life[h].serial], t.node[h], t.life[h].fires, now);
  }

  lemma GiveBackAims(t: Timers, h: nat, status: Status, now: nat)
    requires InHand(t, h, status, now)
    ensures var r := GiveBack(t, status, now);
            AllAimed(r, r.timeQ, now) && AllAimed(r, r.kept, now + 1) && AllAimed(r, r.added, now + 1)
  {
    HeldOnce(t, h);
    RoomInLists(t);
    assert Aimed(t, h, now);
    if t.node[h].future != 0 && h in t.pool.hooks {
      assert t.births[t.life[h].serial] in t.births;
      RetriggeredAims(t, h, now, status);
    }
    hide Stories, Housed, Hooked, Aimed, Conserved, Due, Release;
    GiveBackWf(t, status, now);
    var r := GiveBack(t, status, now);
    AimedFrame(t, r, t.timeQ, now);
    AimedFrame(t, r, t.kept, now + 1);
    AimedFrame(t, r, t.added, now + 1);
  }

  lemma StoryFrame(t: Timers, r: Timers, k: nat)
    requires Wf(t) && Wf(r) && k < |t.births| && r.births == t.births && r.pool.size == t.pool.size
    requires Of(r.log, k) == Of(t.log, k)
    requires k in r.home <==> k in t.home
    requires k in t.home && t.home[k] < t.pool.size ==> r.home[k] == t.home[k] && r.life[t.home[k]] == t.life[t.home[k]]
    requires Story(t, k)
    ensures Story(r, k)
  {
  }

  lemma OtherStory(t: Timers, h: nat, status: Status, now: nat, k: nat)
    requires Wf(t) && Housed(t) && t.current == [h] && h in t.pool.live && h < t.pool.size
    requires k < |t.births| && k != t.life[h].serial && Story(t, k)
    ensures Wf(GiveBack(t, status, now)) && Story(GiveBack(t, status, now), k)
  {
    hide Story, Cells, Of;
    GiveBackWf(t, status, now);
    var r := GiveBack(t, status, now);
    OfSnoc(t.log, Event(t.life[h].serial, now, t.node[h].cb, status), k);
    StoryFrame(t, r, k);
  }

  lemma TimelySnoc(f: seq<Event>, b: Birth, e: Event)
    requires Timely(f, b) && !Over(f, b) && e.at == Due(b, |f| + 1) && e.cb == b.cb
    ensures Timely(f + [e], b)
    ensures Over(f + [e], b) <==> Ends(b, e)
  {
  }

  lemma OwnStory(t: Timers, h: nat, status: Status, now: nat)
    requires InHand(t, h, status, now)
    ensures t.life[h].serial < |t.births|
    ensures Wf(GiveBack(t, status, now)) && Story(GiveBack(t, status, now), t.life[h].serial)
  {
    GiveBackWf(t, status, now);
    var k := t.life[h].serial;
    var e := Event(k, now, t.node[h].cb, status);
    assert Aimed(t, h, now);
    assert Story(t, k);
    OfSnoc(t.log, e, k);
    TimelySnoc(Of(t.log, k), t.births[k], e);
  }

  lemma GiveBackStories(t: Timers, h: nat, status: Status, now: nat)
    requires InHand(t, h, status, now)
    ensures Wf(GiveBack(t, status, now)) && Stories(GiveBack(t, status, now))
  {
    OwnStory(t, h, status, now);
    forall k: nat | k < |t.births| ensures Story(GiveBack(t, status, now), k) {
      if k != t.life[h].serial {
        assert Story(t, k);
        OtherStory(t, h, status, now, k);
      }
    }
  }

  lemma GiveBackKeeps(t: Timers, h: nat, status: Status, now: nat)
    requires InHand(t, h, status, now)
    ensures TimerInv(GiveBack(t, status, now), now, now + 1)
    ensures GiveBack(t, status, now).timeQ == t.timeQ && GiveBack(t, status, now).current == []
  {
    GiveBackConserves(t, h, status, now);
    GiveBackHouses(t, h, status, now);
    GiveBackHooks(t, h, status, now);
    GiveBackAims(t, h, status, now);
    GiveBackStories(t, h, status, now);
  }

  // ------------------------------------------------- one turn, seen from outside

  lemma InvBasics(t: Timers, main: nat, rest: nat)
    requires TimerInv(t, main, rest)
    ensures Wf(t) && |t.current| <= 1
  {
  }

  /** The next node of the walk looks expired exactly at its due tick. */
  lemma TakeFacts(t: Timers, now: nat)
    requires TimerInv(t, now, now + 1) && t.timeQ != [] && t.current == []
    ensures var h := t.timeQ[0];
            && Wf(t) && h < t.pool.size && h in t.pool.live && h in t.pool.hooks
            && TimerInv(Take(t), now, now + 1) && Take(t).current == [h] && h !in t.timeQ[1..]
            && (Expired(t.node[h].time, now % WRAP) <==> t.life[h].due == now)
  {
    var h := t.timeQ[0];
    assert h in t.timeQ;
    RoomInLists(t);
    TakeKeeps(t, now, now + 1);
    HeldOnce(Take(t), h);
    ExpiredIffDue(t, h, now);
  }

  lemma WalkFacts(t: Timers, h: nat, now: nat)
    requires TimerInv(t, now, now + 1) && t.current == [h]
    ensures Wf(t) && h < t.pool.size && Unlisted(t, h)
  {
    HeldOnce(t, h);
    assert h in t.current;
  }

  /** What remains of a turn once the callback (t to r) has been run. */
  lemma FinishKeeps(t: Timers, r: Timers, h: nat, status: Status, now: nat)
    requires Wf(t) && t.current == [h] && h in t.pool.live && h in t.pool.hooks && h < t.pool.size && t.life[h].due == now
    requires TimerInv(r, now, now + 1) && Extends(t, r)
    ensures r.current == [h] && h < |r.node| && r.life[h].serial < |r.births|
    ensures var j := Judge(r, status);
            && Unlisted(j, h) && h in j.pool.live && h < j.pool.size
            && (h in j.pool.hooks ==> j.pool.hooks[h] == Hook(RETRIGGER, h))
    ensures var f := GiveBack(Judge(r, status), status, now);
            TimerInv(f, now, now + 1) && f.timeQ == t.timeQ && f.current == [] && f.kept == t.kept
  {
    assert h in r.current;
    assert Aimed(r, h, now);
    JudgeKeeps(r, status, now, now + 1);
    HeldOnce(Judge(r, status), h);
    GiveBackKeeps(Judge(r, status), h, status, now);
  }

  /** Between walks, the two lists hold every live node once. */
  lemma Population(t: Timers, main: nat, rest: nat)
    requires TimerInv(t, main, rest) && t.current == [] && t.kept == []
    ensures t.pool.live <= Cells(t.pool.size)
    ensures multiset(t.timeQ) + multiset(t.added) == multiset(t.pool.live)
    ensures |t.timeQ| + |t.added| <= t.pool.size
  {
    RoomInLists(t);
  }

  // ------------------------------------------------------ what the log must say

  /** Timer k has fired, with its own callback, at exactly the ticks its timetable
      promised that have passed: all of them while it is alive, those up to its
      end otherwise; and it holds a node exactly while it is alive.  For a null
      callback, which is not called, firing is only the release. */
  ghost predicate FiredAsPromised(t: Timers, now: nat, k: nat)
    requires Wf(t) && k < |t.births|
  {
    var b := t.births[k];
    var f := Of(t.log, k);
    && (forall i | 0 <= i < |f| :: f[i].at == Due(b, i + 1) && f[i].at < now && f[i].cb == b.cb)
    && (|f| > 1 ==> b.future != 0) && (forall i | 0 <= i < |f| - 1 :: f[i].status != Interrupt)
    && var over := f != [] && (b.future == 0 || f[|f| - 1].status == Interrupt);
       && (!over ==> Due(b, |f| + 1) >= now)
       && (!over <==> exists h :: h in t.pool.live && t.life[h].serial == k)
  }

  lemma AllFiredAsPromised(t: Timers, now: nat, k: nat)
    requires TimerInv(t, now, now) && t.current == [] && t.kept == [] && k < |t.births|
    ensures FiredAsPromised(t, now, k)
  {
    hide PoolOk, Cells, Hooked;
    var f := Of(t.log, k);
    assert Story(t, k);
    OfAreLogged(t.log, k);
    assert |f| > 1 ==> !Ends(t.births[k], f[0]);
    forall i | 0 <= i < |f| ensures f[i].at < now {
      assert f[i] in f;
    }
    if k in t.home {
      var h := t.home[k];
      assert h in multiset(t.pool.live);
      assert h in t.timeQ || h in t.added;
      assert Aimed(t, h, now);
      assert h in t.pool.live && t.life[h].serial == k;
    }
  }

  lemma LoggedWasSet(t: Timers, now: nat, e: Event)
    requires TimerInv(t, now, now) && e in t.log
    ensures e.serial < |t.births| && e.cb == t.births[e.serial].cb
  {
    assert Story(t, e.serial);
    OfHas(t.log, e);
  }

  /** A one-shot timer set with delay d at tick t fires once, with its callback.  That
      is at t + d + 1 exactly if d is below 2^31, or is 2^31 and the walk of tick t
      had begun; otherwise at t, or at t + 1 if that walk had begun. */
  ghost predicate FiredOnce(t: Timers, now: nat, k: nat)
    requires k < |t.births|
  {
    var b := t.births[k];
    var f := Of(t.log, k);
    var due := OneShotDue(b);
    && (due == b.setAt + b.first + 1 <==> b.first < HALF || (b.first == HALF && b.late))
    && (due != b.setAt + b.first + 1 ==> due == b.setAt + if b.late then 1 else 0)
    && (if due < now then |f| == 1 && f[0].at == due && f[0].cb == b.cb else f == [])
  }

  lemma OneShotHistory(t: Timers, now: nat, k: nat)
    requires Wf(t) && k < |t.births| && t.births[k].future == 0 && FiredAsPromised(t, now, k)
    ensures FiredOnce(t, now, k)
  {
  }

  /** The tick of a periodic timer's i-th firing, written out. */
  function Beat(b: Birth, i: nat): int {
    if b.future > 0 then b.setAt + i * (b.future + 1) else b.setAt + i * -b.future + 1
  }

  lemma BeatIsDue(b: Birth, i: nat)
    requires b.future != 0
    ensures Beat(b, i) == Due(b, i)
  {
    TimesIsProduct(i, if b.future > 0 then b.future + 1 else -b.future);
  }

  /** A periodic timer fires on every beat that has passed, with its callback,
      up to and including the first one answered with Status_Interrupt. */
  ghost predicate KeptPace(t: Timers, now: nat, k: nat)
    requires k < |t.births|
  {
    var b := t.births[k];
    var f := Of(t.log, k);
    && (forall i | 0 <= i < |f| :: f[i].at == Beat(b, i + 1) && f[i].at < now && f[i].cb == b.cb)
    && (forall i | 0 <= i < |f| - 1 :: f[i].status != Interrupt)
    && (f == [] || f[|f| - 1].status != Interrupt ==> Beat(b, |f| + 1) >= now)
  }

  lemma PeriodicHistory(t: Timers, now: nat, k: nat)
    requires Wf(t) && k < |t.births| && t.births[k].future != 0 && FiredAsPromised(t, now, k)
    ensures KeptPace(t, now, k)
  {
    var b := t.births[k];
    var f := Of(t.log, k);
    forall i | 0 <= i < |f| ensures f[i].at == Beat(b, i + 1) && f[i].at < now {
      assert f[i] in f;
      BeatIsDue(b, i + 1);
    }
    BeatIsDue(b, |f| + 1);
  }
}
