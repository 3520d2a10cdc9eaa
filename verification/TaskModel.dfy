// The task half of src/set_run_isr.c as a value: a fixed pool of holders, the
// queue being drained (src), the queue that collects submissions (dst) and the
// holder being run.  TaskRunner.dfy proves the code against these functions.
module TaskModel {
  import opened Base
  import opened GenPool
  import opened History

  const REQUEUE: nat := 1   // requeue_task, the pool's release callback

  /** A submission made at tick `at`; late if that tick's drain had begun. */
  datatype Submission = Submission(cb: Cb, once: bool, at: nat, late: bool)

  /** Which submission a holder carries and how often it has run. */
  datatype Life = Life(serial: nat, runs: nat)

  datatype Tasks = Tasks(
    pool: Pool, cb: seq<Cb>, life: seq<Life>, subs: seq<Submission>, home: map<nat, nat>,
    src: seq<nat>, running: seq<nat>, dst: seq<nat>, log: seq<Event>)

  ghost predicate Wf(t: Tasks) {
    PoolOk(t.pool) && |t.cb| == t.pool.size && |t.life| == t.pool.size
  }

  function Fresh(size: nat): Tasks {
    Tasks(Pool(size, {}, map[], 0), seq(size, _ => Cb(0, 0)), seq(size, _ => Life(0, 0)), [], map[], [], [], [], [])
  }

  /** The tick of a submission's k-th run: it runs in every drain from the first
      one that begins after it was made. */
  function Due(b: Submission, k: nat): int {
    b.at + (if b.late then 1 else 0) + k - 1
  }

  /** A run after which the task is over. */
  predicate Ends(b: Submission, e: Event) {
    b.once || e.status != OK
  }

  // --------------------------------------------------------------- operations

  /** Submission |t.subs| moves into holder h at the end of the collecting queue. */
  function Submitted(t: Tasks, h: nat, b: Submission): Tasks
    requires h < |t.cb| && h < |t.life|
  {
    t.(pool := if b.once then Alloc(t.pool, 0, 0).0 else Alloc(t.pool, REQUEUE, OWN_ADDRESS).0,
       cb := t.cb[h := b.cb], life := t.life[h := Life(|t.subs|, 0)],
       subs := t.subs + [b], home := t.home[|t.subs| := h], dst := t.dst + [h])
  }

  ghost function Submit(t: Tasks, cb: Cb, once: bool, now: nat, late: bool): (r: (Tasks, Status))
    requires Wf(t)
    ensures Wf(r.0)
  {
    PickFindsFree(t.pool);
    if cb.fn == 0 then (t, Param)
    else
      match Pick(t.pool)
      case None => (t, FULL)
      case Some(h) => (Submitted(t, h, Submission(cb, once, now, late)), OK)
  }

  ghost predicate CarriedBy(t: Tasks, h: nat, once: bool, r: Tasks)
    requires Wf(t) && |r.life| == |t.life| && |r.cb| == |t.cb| && |r.subs| > |t.subs|
  {
    && h < t.pool.size && h !in t.pool.live && r.pool.live == t.pool.live + {h}
    && r.dst == t.dst + [h] && r.cb[h] == r.subs[|t.subs|].cb && r.life[h] == Life(|t.subs|, 0)
    && (h in r.pool.hooks <==> !once) && (!once ==> r.pool.hooks[h] == Hook(REQUEUE, h))
    && forall g | g in t.pool.live :: r.cb[g] == t.cb[g] && r.life[g] == t.life[g]
  }

  /** A submission takes t to r: a null callback answers Param and an exhausted pool FULL,
      and nothing changes; otherwise exactly one submission is added, with this callback
      and this kind and of this moment, and a free holder carries it at the end of the
      collecting queue, to be requeued unless it is to run once. */
  ghost predicate Submits(t: Tasks, cb: Cb, once: bool, now: nat, late: bool, r: Tasks, st: Status)
    requires Wf(t)
  {
    if cb.fn == 0 then st == Param && r == t
    else if t.pool.live == Cells(t.pool.size) then st == FULL && r == t
    else
      && st == OK && r.subs == t.subs + [Submission(cb, once, now, late)]
      && r.src == t.src && r.running == t.running && r.log == t.log && r.pool.size == t.pool.size
      && |r.life| == |t.life| && |r.cb| == |t.cb|
      && exists h :: CarriedBy(t, h, once, r)
  }

  ghost function OnCall(t: Tasks, c: Call, now: nat, late: bool): (r: Tasks)
    requires Wf(t)
    ensures Wf(r)
  {
    match c
    case RunTask(cb) => Submit(t, cb, false, now, late).0
    case RunTaskOnce(cb) => Submit(t, cb, true, now, late).0
    case _ => t
  }

  ghost function OnCalls(t: Tasks, cs: seq<UserCall>, now: nat, late: bool): (r: Tasks)
    requires Wf(t)
    ensures Wf(r)
    decreases |cs|
  {
    if cs == [] then t else OnCalls(OnCall(t, cs[0], now, late), cs[1..], now, late)
  }

  /** Run_Tasks begins: what was collected is drained, the other queue collects. */
  function Flip(t: Tasks): Tasks {
    t.(src := t.dst, dst := t.src)
  }

  function Start(t: Tasks): Tasks
    requires t.src != []
  {
    t.(src := t.src[1..], running := [t.src[0]])
  }

  /** A task that did not answer OK loses its requeue callback. */
  function Judge(t: Tasks, status: Status): Tasks
    requires t.running != []
  {
    if status == OK then t else t.(pool := Extract(t.pool, t.running[0]))
  }

  /** The holder goes back to its pool, unless requeue_task keeps it. */
  function GiveBack(t: Tasks, status: Status, now: nat): Tasks
    requires t.running != [] && t.running[0] < |t.life| && t.running[0] < |t.cb|
  {
    var h := t.running[0];
    var l := t.life[h];
    var logged := t.(running := [], log := t.log + [Event(l.serial, now, t.cb[h], status)]);
    if h in t.pool.live && h in t.pool.hooks then
      logged.(life := t.life[h := Life(l.serial, l.runs + 1)], dst := t.dst + [h])
    else
      logged.(pool := Release(t.pool, h, OK).0, home := t.home - {l.serial})
  }

  // ---------------------------------------------------------------- invariant

  /** Every live holder is in exactly one place, exactly once. */
  ghost predicate Conserved(t: Tasks) {
    multiset(t.src) + multiset(t.running) + multiset(t.dst) == multiset(t.pool.live)
  }

  /** Live holders and unfinished submissions correspond one to one. */
  ghost predicate Housed(t: Tasks)
    requires Wf(t)
  {
    && (forall h | h in t.pool.live :: t.life[h].serial in t.home && t.home[t.life[h].serial] == h)
    && (forall k | k in t.home :: k < |t.subs| && t.home[k] in t.pool.live && t.life[t.home[k]].serial == k)
    && (forall e | e in t.log :: e.serial < |t.subs|)
  }

  /** Only repeating holders carry requeue_task, aimed at themselves, and all of
      them do but for a running one that may have been robbed of it. */
  ghost predicate Hooked(t: Tasks)
    requires Wf(t) && Housed(t)
  {
    && (forall h | h in t.pool.hooks :: t.pool.hooks[h] == Hook(REQUEUE, h))
    && (forall h | h in t.pool.live :: h in t.pool.hooks ==> !t.subs[t.life[h].serial].once)
    && (forall h | h in t.pool.live && h !in t.running :: h !in t.pool.hooks ==> t.subs[t.life[h].serial].once)
  }

  /** Holder h carries what was submitted and is due in the drain of tick check. */
  ghost predicate Aimed(t: Tasks, h: nat, check: nat)
    requires Wf(t) && h < t.pool.size
  {
    var l := t.life[h];
    && l.serial < |t.subs|
    && t.cb[h] == t.subs[l.serial].cb
    && Due(t.subs[l.serial], l.runs + 1) == check
    && (t.subs[l.serial].once ==> l.runs == 0)
  }

  ghost predicate AllAimed(t: Tasks, q: seq<nat>, check: nat)
    requires Wf(t)
  {
    forall h | h in q :: h < t.pool.size && Aimed(t, h, check)
  }

  /** The i-th run came at its promised tick, with the submitted callback, and
      only the last can have been the end. */
  predicate Timely(f: seq<Event>, b: Submission) {
    && (forall i | 0 <= i < |f| :: f[i].at == Due(b, i + 1) && f[i].cb == b.cb)
    && (forall i | 0 <= i < |f| - 1 :: !Ends(b, f[i]))
  }

  predicate Over(f: seq<Event>, b: Submission) {
    f != [] && Ends(b, f[|f| - 1])
  }

  /** What the log says of submission k is what was promised, so far; and it is
      still housed exactly until it is over. */
  ghost predicate Story(t: Tasks, k: nat)
    requires Wf(t) && k < |t.subs|
  {
    var f := Of(t.log, k);
    && Timely(f, t.subs[k])
    && (k in t.home <==> !Over(f, t.subs[k]))
    && (k in t.home ==> t.home[k] < t.pool.size && t.life[t.home[k]].runs == |f|)
  }

  ghost predicate Stories(t: Tasks)
    requires Wf(t)
  {
    forall k: nat | k < |t.subs| :: Story(t, k)
  }

  /** The draining queue is due at tick main, the collecting one at tick rest. */
  ghost predicate TaskInv(t: Tasks, main: nat, rest: nat) {
    && Wf(t) && |t.running| <= 1
    && Conserved(t) && Housed(t) && Hooked(t) && Stories(t)
    && AllAimed(t, t.src, main) && AllAimed(t, t.running, main) && AllAimed(t, t.dst, rest)
    && (forall e | e in t.log :: e.at < rest)
  }

  lemma InvBasics(t: Tasks, main: nat, rest: nat)
    requires TaskInv(t, main, rest)
    ensures Wf(t) && |t.running| <= 1
  {
  }

  lemma InvConserves(t: Tasks, main: nat, rest: nat)
    requires TaskInv(t, main, rest)
    ensures Conserved(t)
  {
  }

  lemma FreshInv(size: nat, main: nat, rest: nat)
    requires size > 0
    ensures TaskInv(Fresh(size), main, rest)
  {
  }

  /** The pigeonhole: no queue can hold more holders than the pool has, and while
      one is being run each queue has room for it. */
  lemma RoomInQueues(t: Tasks)
    requires Wf(t) && Conserved(t)
    ensures |t.src| + |t.running| + |t.dst| == |t.pool.live| <= t.pool.size
    ensures forall h | h in t.src || h in t.running || h in t.dst :: h in t.pool.live && h < t.pool.size
  {
    LiveAtMost(t.pool.live, t.pool.size);
    var all := multiset(t.src) + multiset(t.running) + multiset(t.dst);
    assert |all| == |t.src| + |t.running| + |t.dst|;
    assert |multiset(t.pool.live)| == |t.pool.live|;
    forall h | h in t.src || h in t.running || h in t.dst ensures h in t.pool.live {
      assert h in all;
    }
  }

  /** The running holder is in neither queue. */
  lemma HeldOnce(t: Tasks, h: nat)
    requires Wf(t) && Conserved(t) && t.running == [h]
    ensures h !in t.src && h !in t.dst
  {
    assert multiset(t.running)[h] == 1;
    assert multiset(t.pool.live)[h] <= 1;
    assert (multiset(t.src) + multiset(t.running) + multiset(t.dst))[h] <= 1;
  }

  // -------------------------------------------------------------- preservation

  /** The tick of the drain that will run what is submitted now. */
  function RestOf(now: nat, late: bool): nat {
    if late then now + 1 else now
  }

  /** What submitting keeps of the holders that are already there. */
  ghost predicate Extends(t: Tasks, r: Tasks)
    requires Wf(t) && Wf(r)
  {
    && r.src == t.src && r.running == t.running && r.log == t.log
    && r.pool.size == t.pool.size && t.subs <= r.subs
    && forall h | h in t.pool.live ::
         h in r.pool.live && r.cb[h] == t.cb[h] && r.life[h] == t.life[h] && (h in r.pool.hooks <==> h in t.pool.hooks)
  }

  /** h is the cell the pool hands out next. */
  ghost predicate Handed(t: Tasks, h: nat) {
    Wf(t) && Pick(t.pool) == Some(h) && h < t.pool.size && h !in t.pool.live
  }

  lemma SubmittedConserves(t: Tasks, h: nat, b: Submission)
    requires Handed(t, h) && Conserved(t)
    ensures Conserved(Submitted(t, h, b))
  {
    MultisetOfSet(t.pool.live, h);
    assert multiset(Submitted(t, h, b).dst) == multiset(t.dst) + multiset{h};
  }

  lemma SubmittedExtends(t: Tasks, h: nat, b: Submission)
    requires Handed(t, h)
    ensures Wf(Submitted(t, h, b)) && Extends(t, Submitted(t, h, b))
  {
    assert Submitted(t, h, b).subs[..|t.subs|] == t.subs;
  }

  lemma SubmittedHouses(t: Tasks, h: nat, b: Submission)
    requires Handed(t, h) && Housed(t)
    ensures Wf(Submitted(t, h, b)) && Housed(Submitted(t, h, b))
  {
  }

  lemma SubmittedHooks(t: Tasks, h: nat, b: Submission)
    requires Handed(t, h) && Housed(t) && Hooked(t)
    ensures Wf(Submitted(t, h, b)) && Housed(Submitted(t, h, b)) && Hooked(Submitted(t, h, b))
  {
    SubmittedHouses(t, h, b);
  }

  /** Holders keep their aim as long as they and the submissions are left alone. */
  lemma AimedFrame(t: Tasks, r: Tasks, q: seq<nat>, check: nat)
    requires Wf(t) && Wf(r) && AllAimed(t, q, check)
    requires t.pool.size == r.pool.size && t.subs <= r.subs
    requires forall h | h in q && h < t.pool.size :: r.cb[h] == t.cb[h] && r.life[h] == t.life[h]
    ensures AllAimed(r, q, check)
  {
    forall h | h in q ensures h < r.pool.size && Aimed(r, h, check) {
      assert Aimed(t, h, check);
    }
  }

  lemma SubmittedAims(t: Tasks, h: nat, b: Submission, main: nat)
    requires Handed(t, h) && TaskInv(t, main, RestOf(b.at, b.late))
    ensures var r := Submitted(t, h, b);
            && Wf(r) && AllAimed(r, r.src, main) && AllAimed(r, r.running, main)
            && AllAimed(r, r.dst, RestOf(b.at, b.late))
  {
    var r := Submitted(t, h, b);
    var rest := RestOf(b.at, b.late);
    SubmittedExtends(t, h, b);
    RoomInQueues(t);
    AimedFrame(t, r, t.src, main);
    AimedFrame(t, r, t.running, main);
    AimedFrame(t, r, t.dst, rest);
    assert Aimed(r, h, rest);
  }

  lemma SubmittedStories(t: Tasks, h: nat, b: Submission)
    requires Handed(t, h) && Housed(t) && Stories(t)
    ensures Wf(Submitted(t, h, b)) && Stories(Submitted(t, h, b))
  {
    var r := Submitted(t, h, b);
    OfUnborn(t.log, |t.subs|);
    forall k: nat | k < |r.subs| ensures Story(r, k) {
      if k < |t.subs| {
        assert Story(t, k);
      }
    }
  }

  lemma SubmitExact(t: Tasks, cb: Cb, once: bool, now: nat, late: bool)
    requires Wf(t)
    ensures Submits(t, cb, once, now, late, Submit(t, cb, once, now, late).0, Submit(t, cb, once, now, late).1)
  {
    PickFindsFree(t.pool);
    if cb.fn != 0 && Pick(t.pool).Some? {
      AllocExact(t.pool, if once then 0 else REQUEUE, if once then 0 else OWN_ADDRESS);
      assert CarriedBy(t, Pick(t.pool).value, once, Submit(t, cb, once, now, late).0);
    }
  }

  lemma SubmitKeeps(t: Tasks, cb: Cb, once: bool, now: nat, late: bool, main: nat)
    requires TaskInv(t, main, RestOf(now, late))
    ensures TaskInv(Submit(t, cb, once, now, late).0, main, RestOf(now, late))
    ensures Extends(t, Submit(t, cb, once, now, late).0)
    ensures Submit(t, cb, once, now, late).1 ==
            if cb.fn == 0 then Param else if t.pool.live == Cells(t.pool.size) then FULL else OK
  {
    PickFindsFree(t.pool);
    if cb.fn != 0 && Pick(t.pool).Some? {
      var h := Pick(t.pool).value;
      var b := Submission(cb, once, now, late);
      SubmittedExtends(t, h, b);
      SubmittedConserves(t, h, b);
      SubmittedHooks(t, h, b);
      SubmittedAims(t, h, b, main);
      SubmittedStories(t, h, b);
    }
  }

  /** A submission that gets a holder finds room for it in the collecting queue. */
  ghost predicate HasRoom(t: Tasks) {
    Pick(t.pool).Some? ==> |t.dst| < t.pool.size
  }

  lemma SubmitHasRoom(t: Tasks, main: nat, rest: nat)
    requires TaskInv(t, main, rest)
    ensures HasRoom(t)
  {
    PickFindsFree(t.pool);
    RoomInQueues(t);
    if Pick(t.pool).Some? {
      LiveAtMost(t.pool.live + {Pick(t.pool).value}, t.pool.size);
    }
  }

  lemma ExtendsChain(t: Tasks, m: Tasks, r: Tasks)
    requires Wf(t) && Wf(m) && Wf(r)
    ensures Extends(t, t)
    ensures Extends(t, m) && Extends(m, r) ==> Extends(t, r)
  {
  }

  lemma CallKeeps(t: Tasks, c: UserCall, now: nat, late: bool, main: nat)
    requires TaskInv(t, main, RestOf(now, late))
    ensures TaskInv(OnCall(t, c, now, late), main, RestOf(now, late))
    ensures Extends(t, OnCall(t, c, now, late))
  {
    hide Conserved, Housed, Hooked, Stories, AllAimed, Submit, Extends;
    match c {
      case RunTask(cb) => SubmitKeeps(t, cb, false, now, late, main);
      case RunTaskOnce(cb) => SubmitKeeps(t, cb, true, now, late, main);
      case _ => ExtendsChain(t, t, t);
    }
  }

  lemma {:induction false} CallsKeep(t: Tasks, cs: seq<UserCall>, now: nat, late: bool, main: nat)
    requires TaskInv(t, main, RestOf(now, late))
    ensures TaskInv(OnCalls(t, cs, now, late), main, RestOf(now, late))
    ensures Extends(t, OnCalls(t, cs, now, late))
    decreases |cs|
  {
    hide TaskInv, OnCall, Extends;
    InvBasics(t, main, RestOf(now, late));
    if cs == [] {
      ExtendsChain(t, t, t);
    } else {
      var m := OnCall(t, cs[0], now, late);
      CallKeeps(t, cs[0], now, late, main);
      CallsKeep(m, cs[1..], now, late, main);
      ExtendsChain(t, m, OnCalls(m, cs[1..], now, late));
    }
  }

  /** Moving holders between queues tells no story anew. */
  lemma SameStories(t: Tasks, r: Tasks)
    requires Wf(t) && Wf(r) && Stories(t)
    requires r.log == t.log && r.subs == t.subs && r.home == t.home && r.life == t.life && r.pool.size == t.pool.size
    ensures Stories(r)
  {
    forall k: nat | k < |r.subs| ensures Story(r, k) {
      assert Story(t, k);
    }
  }

  lemma FlipKeeps(t: Tasks, now: nat)
    requires TaskInv(t, now, now) && t.src == [] && t.running == []
    ensures TaskInv(Flip(t), now, now + 1)
  {
    SameStories(t, Flip(t));
    AimedFrame(t, Flip(t), t.dst, now);
  }

  /** With the draining queue empty, what tick it stood for no longer matters. */
  lemma DrainedKeeps(t: Tasks, main: nat, main': nat, rest: nat)
    requires TaskInv(t, main, rest) && t.src == [] && t.running == []
    ensures TaskInv(t, main', rest)
  {
  }

  lemma StartKeeps(t: Tasks, main: nat, rest: nat)
    requires TaskInv(t, main, rest) && t.src != [] && t.running == []
    ensures TaskInv(Start(t), main, rest)
  {
    assert t.src == [t.src[0]] + t.src[1..];
    SameStories(t, Start(t));
    AimedFrame(t, Start(t), t.src, main);
    AimedFrame(t, Start(t), t.dst, rest);
  }

  lemma JudgeKeeps(t: Tasks, status: Status, main: nat, rest: nat)
    requires TaskInv(t, main, rest) && t.running != []
    ensures TaskInv(Judge(t, status), main, rest)
  {
    var r := Judge(t, status);
    SameStories(t, r);
    AimedFrame(t, r, t.src, main);
    AimedFrame(t, r, t.running, main);
    AimedFrame(t, r, t.dst, rest);
  }

  /** Giving back holder h after it answered. */
  ghost predicate InHand(t: Tasks, h: nat, status: Status, now: nat) {
    && TaskInv(t, now, now + 1) && t.running == [h] && h in t.pool.live && h < t.pool.size
    && (h in t.pool.hooks <==> status == OK && !t.subs[t.life[h].serial].once)
  }

  lemma GiveBackConserves(t: Tasks, h: nat, status: Status, now: nat)
    requires InHand(t, h, status, now)
    ensures var r := GiveBack(t, status, now); Wf(r) && Conserved(r) && Housed(r)
  {
    HeldOnce(t, h);
    MultisetOfSet(t.pool.live, h);
    RoomInQueues(t);
  }

  lemma GiveBackHooks(t: Tasks, h: nat, status: Status, now: nat)
    requires InHand(t, h, status, now)
    ensures var r := GiveBack(t, status, now); Wf(r) && Housed(r) && Hooked(r)
  {
    GiveBackConserves(t, h, status, now);
  }

  lemma GiveBackAims(t: Tasks, h: nat, status: Status, now: nat)
    requires InHand(t, h, status, now)
    ensures var r := GiveBack(t, status, now);
            Wf(r) && AllAimed(r, r.src, now) && AllAimed(r, r.dst, now + 1)
  {
    GiveBackConserves(t, h, status, now);
    HeldOnce(t, h);
    var r := GiveBack(t, status, now);
    AimedFrame(t, r, t.src, now);
    AimedFrame(t, r, t.dst, now + 1);
    assert Aimed(t, h, now);
  }

  lemma StoryFrame(t: Tasks, r: Tasks, k: nat)
    requires Wf(t) && Wf(r) && k < |t.subs| && r.subs == t.subs && r.pool.size == t.pool.size
    requires Of(r.log, k) == Of(t.log, k)
    requires k in r.home <==> k in t.home
    requires k in t.home && t.home[k] < t.pool.size ==> r.home[k] == t.home[k] && r.life[t.home[k]] == t.life[t.home[k]]
    requires Story(t, k)
    ensures Story(r, k)
  {
  }

  lemma OtherStory(t: Tasks, h: nat, status: Status, now: nat, k: nat)
    requires Wf(t) && Housed(t) && t.running == [h] && h in t.pool.live && h < t.pool.size
    requires k < |t.subs| && k != t.life[h].serial && Story(t, k)
    ensures Wf(GiveBack(t, status, now)) && Story(GiveBack(t, status, now), k)
  {
    hide Story, Cells, Of;
    var r := GiveBack(t, status, now);
    OfSnoc(t.log, Event(t.life[h].serial, now, t.cb[h], status), k);
    StoryFrame(t, r, k);
  }

  lemma TimelySnoc(f: seq<Event>, b: Submission, e: Event)
    requires Timely(f, b) && !Over(f, b) && e.at == Due(b, |f| + 1) && e.cb == b.cb
    ensures Timely(f + [e], b)
    ensures Over(f + [e], b) <==> Ends(b, e)
  {
  }

  lemma OwnMove(t: Tasks, h: nat, status: Status, now: nat)
    requires Wf(t) && Housed(t) && t.running == [h] && h in t.pool.live && h < t.pool.size
    ensures var r, k := GiveBack(t, status, now), t.life[h].serial;
            && r.log == t.log + [Event(k, now, t.cb[h], status)] && r.subs == t.subs && k < |r.subs|
            && |r.life| == |t.life| && r.pool.size == t.pool.size
            && (k in r.home <==> h in t.pool.hooks)
            && (k in r.home ==> r.home[k] == h && r.life[h].runs == t.life[h].runs + 1)
  {
    hide Cells, PoolOk;
  }

  lemma OwnStory(t: Tasks, h: nat, status: Status, now: nat)
    requires InHand(t, h, status, now)
    ensures t.life[h].serial < |t.subs|
    ensures Wf(GiveBack(t, status, now)) && Story(GiveBack(t, status, now), t.life[h].serial)
  {
    var k := t.life[h].serial;
    var e := Event(k, now, t.cb[h], status);
    GiveBackConserves(t, h, status, now);
    OwnMove(t, h, status, now);
    assert Aimed(t, h, now);
    assert Story(t, k);
    hide Timely, Over, Due, Conserved, Hooked, Housed, GiveBack, PoolOk, Of;
    OfSnoc(t.log, e, k);
    TimelySnoc(Of(t.log, k), t.subs[k], e);
  }

  lemma GiveBackStories(t: Tasks, h: nat, status: Status, now: nat)
    requires InHand(t, h, status, now)
    ensures Wf(GiveBack(t, status, now)) && Stories(GiveBack(t, status, now))
  {
    OwnStory(t, h, status, now);
    forall k: nat | k < |t.subs| ensures Story(GiveBack(t, status, now), k) {
      if k != t.life[h].serial {
        assert Story(t, k);
        OtherStory(t, h, status, now, k);
      }
    }
  }

  lemma GiveBackKeeps(t: Tasks, h: nat, status: Status, now: nat)
    requires InHand(t, h, status, now)
    ensures TaskInv(GiveBack(t, status, now), now, now + 1)
  {
    GiveBackConserves(t, h, status, now);
    GiveBackHooks(t, h, status, now);
    GiveBackAims(t, h, status, now);
    GiveBackStories(t, h, status, now);
  }

  // ------------------------------------------------- one turn, seen from outside

  lemma StartFacts(t: Tasks, main: nat, rest: nat)
    requires TaskInv(t, main, rest) && t.src != [] && t.running == []
    ensures var h := t.src[0];
            && Wf(t) && h < t.pool.size && h in t.pool.live && h !in t.src[1..]
            && TaskInv(Start(t), main, rest) && Start(t).running == [h]
            && t.life[h].serial < |t.subs| && (h in t.pool.hooks <==> !t.subs[t.life[h].serial].once)
    ensures forall h | h in t.src :: h in t.pool.live && h < t.pool.size && t.life[h].serial < |t.subs|
  {
    var h := t.src[0];
    assert h in t.src;
    RoomInQueues(t);
    StartKeeps(t, main, rest);
    HeldOnce(Start(t), h);
  }

  /** What remains of a turn once the callback (t to r) has been run. */
  lemma FinishKeeps(t: Tasks, r: Tasks, h: nat, status: Status, now: nat)
    requires Wf(t) && t.running == [h] && h in t.pool.live && h < t.pool.size && t.life[h].serial < |t.subs|
    requires h in t.pool.hooks <==> !t.subs[t.life[h].serial].once
    requires TaskInv(r, now, now + 1) && Extends(t, r)
    ensures r.running == [h] && h < |r.life| && h < |r.cb| && h in r.pool.live
    ensures var j := Judge(r, status);
            |j.dst| < j.pool.size && h in j.pool.live && h < j.pool.size
            && (h in j.pool.hooks ==> j.pool.hooks[h] == Hook(REQUEUE, h))
    ensures h in Judge(r, status).pool.hooks <==> status == OK && !t.subs[t.life[h].serial].once
    ensures var f := GiveBack(Judge(r, status), status, now);
            && TaskInv(f, now, now + 1) && f.src == t.src && f.running == []
  {
    assert h in r.running;
    JudgeKeeps(r, status, now, now + 1);
    RoomInQueues(r);
    GiveBackKeeps(Judge(r, status), h, status, now);
  }

  // -------------------------------------------------------- order of survivors

  /** The submissions numbered below bound among the holders of q, in order. */
  function Older(life: seq<Life>, q: seq<nat>, bound: nat): seq<nat> {
    if q == [] then []
    else
      var h := q[|q| - 1];
      Older(life, q[..|q| - 1], bound) +
      (if h < |life| && life[h].serial < bound then [life[h].serial] else [])
  }

  lemma OlderSnoc(life: seq<Life>, q: seq<nat>, h: nat, bound: nat)
    ensures Older(life, q + [h], bound) ==
            Older(life, q, bound) + (if h < |life| && life[h].serial < bound then [life[h].serial] else [])
  {
    assert (q + [h])[..|q|] == q;
  }

  lemma {:induction false} OlderFrame(life: seq<Life>, life': seq<Life>, q: seq<nat>, bound: nat)
    requires |life| == |life'|
    requires forall h | h in q && h < |life| :: life[h].serial == life'[h].serial
    ensures Older(life, q, bound) == Older(life', q, bound)
    decreases |q|
  {
    if q == [] {
    } else {
      assert q[|q| - 1] in q;
      assert forall h | h in q[..|q| - 1] :: h in q;
      OlderFrame(life, life', q[..|q| - 1], bound);
    }
  }

  lemma SubmitAppendsYounger(t: Tasks, cb: Cb, once: bool, now: nat, late: bool, bound: nat)
    requires Wf(t) && Conserved(t) && bound <= |t.subs|
    ensures var r := Submit(t, cb, once, now, late).0;
            Older(r.life, r.dst, bound) == Older(t.life, t.dst, bound)
  {
    RoomInQueues(t);
    PickFindsFree(t.pool);
    var r := Submit(t, cb, once, now, late).0;
    if r.dst != t.dst {
      OlderFrame(t.life, r.life, t.dst, bound);
      OlderSnoc(r.life, t.dst, Pick(t.pool).value, bound);
    }
  }

  /** Submitting during a drain puts only younger submissions among the survivors. */
  lemma {:induction false} CallsAppendYounger(t: Tasks, cs: seq<UserCall>, now: nat, late: bool, main: nat, bound: nat)
    requires TaskInv(t, main, RestOf(now, late)) && bound <= |t.subs|
    ensures Older(OnCalls(t, cs, now, late).life, OnCalls(t, cs, now, late).dst, bound) == Older(t.life, t.dst, bound)
    decreases |cs|
  {
    if cs == [] {
    } else {
      match cs[0] {
        case RunTask(cb) =>
          SubmitKeeps(t, cb, false, now, late, main);
          SubmitAppendsYounger(t, cb, false, now, late, bound);
        case RunTaskOnce(cb) =>
          SubmitKeeps(t, cb, true, now, late, main);
          SubmitAppendsYounger(t, cb, true, now, late, bound);
        case _ =>
      }
      hide TaskInv;
      CallsAppendYounger(OnCall(t, cs[0], now, late), cs[1..], now, late, main, bound);
    }
  }

  /** Giving back holder h appends its submission to the survivors, or not. */
  lemma GiveBackOrder(t: Tasks, h: nat, status: Status, now: nat, bound: nat)
    requires Wf(t) && Conserved(t) && t.running == [h] && h in t.pool.live && h < t.pool.size
    requires t.life[h].serial < bound
    ensures var f := GiveBack(t, status, now);
            Older(f.life, f.dst, bound) ==
              Older(t.life, t.dst, bound) + (if h in t.pool.hooks then [t.life[h].serial] else [])
  {
    var f := GiveBack(t, status, now);
    OlderFrame(t.life, f.life, t.dst, bound);
    OlderSnoc(f.life, t.dst, h, bound);
  }

  /** Between drains, the collecting queue holds every live holder once. */
  lemma Population(t: Tasks, main: nat, rest: nat)
    requires TaskInv(t, main, rest) && t.running == [] && t.src == []
    ensures t.pool.live <= Cells(t.pool.size)
    ensures multiset(t.dst) == multiset(t.pool.live) && |t.dst| <= t.pool.size
  {
    RoomInQueues(t);
  }

  // ------------------------------------------------------ what the log must say

  /** Submission k has run, with its own callback, in every drain since it was
      made, until it was over; and it holds a holder exactly until then. */
  ghost predicate RanAsPromised(t: Tasks, now: nat, k: nat)
    requires Wf(t) && k < |t.subs|
  {
    var b := t.subs[k];
    var f := Of(t.log, k);
    && (forall i | 0 <= i < |f| :: f[i].at == RestOf(b.at, b.late) + i && f[i].at < now && f[i].cb == b.cb)
    && (|f| > 1 ==> !b.once) && (forall i | 0 <= i < |f| - 1 :: f[i].status == OK)
    && var over := f != [] && (b.once || f[|f| - 1].status != OK);
       && (!over ==> RestOf(b.at, b.late) + |f| == now)
       && (!over <==> exists h :: h in t.pool.live && t.life[h].serial == k)
  }

  lemma AllRanAsPromised(t: Tasks, now: nat, k: nat)
    requires TaskInv(t, now, now) && t.running == [] && k < |t.subs|
    ensures RanAsPromised(t, now, k)
  {
    hide PoolOk, Cells, Hooked;
    var f := Of(t.log, k);
    assert Story(t, k);
    OfAreLogged(t.log, k);
    assert |f| > 1 ==> !Ends(t.subs[k], f[0]);
    forall i | 0 <= i < |f| ensures f[i].at < now {
      assert f[i] in f;
    }
    if k in t.home {
      var h := t.home[k];
      assert h in multiset(t.pool.live);
      assert h in t.src || h in t.dst;
      assert Aimed(t, h, now);
      assert h in t.pool.live && t.life[h].serial == k;
    }
  }

  lemma LoggedIsSubmitted(t: Tasks, now: nat, e: Event)
    requires TaskInv(t, now, now) && e in t.log
    ensures e.serial < |t.subs| && e.cb == t.subs[e.serial].cb
  {
    assert Story(t, e.serial);
    OfHas(t.log, e);
  }

  /** A Run_Task_Once submission runs once, in the next drain, and never again. */
  lemma OnceHistory(t: Tasks, now: nat, k: nat)
    requires Wf(t) && k < |t.subs| && t.subs[k].once && RanAsPromised(t, now, k)
    ensures |Of(t.log, k)| == if RestOf(t.subs[k].at, t.subs[k].late) < now then 1 else 0
  {
    var f := Of(t.log, k);
    if f != [] {
      assert f[0].at == RestOf(t.subs[k].at, t.subs[k].late);
    }
  }

  // --------------------------------------------------------- one turn, in order

  function Serials(life: seq<Life>, q: seq<nat>): seq<nat> {
    if q == [] then []
    else (if q[0] < |life| then [life[q[0]].serial] else []) + Serials(life, q[1..])
  }

  lemma {:induction false} SerialsFrame(life: seq<Life>, life': seq<Life>, q: seq<nat>)
    requires |life| == |life'|
    requires forall h | h in q && h < |life| :: life[h].serial == life'[h].serial
    ensures Serials(life, q) == Serials(life', q)
    decreases |q|
  {
    if q == [] {
    } else {
      assert q[0] in q;
      assert forall h | h in q[1..] :: h in q;
      SerialsFrame(life, life', q[1..]);
    }
  }

  function SerialsOf(events: seq<Event>): seq<nat> {
    if events == [] then [] else [events[0].serial] + SerialsOf(events[1..])
  }

  /** The submissions that these runs did not bring to an end, in order. */
  function Survivors(events: seq<Event>, subs: seq<Submission>): seq<nat> {
    if events == [] then []
    else
      var e := events[0];
      (if e.serial < |subs| && !Ends(subs[e.serial], e) then [e.serial] else []) + Survivors(events[1..], subs)
  }

  /** A turn that takes t to r: the first waiting holder has run, and waits again
      behind the others unless that was its end. */
  ghost predicate TurnInOrder(t: Tasks, r: Tasks, bound: nat) {
    && t.src != [] && r.src == t.src[1..] && |r.life| == |t.life| && t.src[0] < |t.life|
    && t.subs <= r.subs && bound <= |t.subs| && t.life[t.src[0]].serial < bound
    && (forall h | h in r.src :: h < |t.life| && r.life[h].serial == t.life[h].serial)
    && exists e: Event ::
         && r.log == t.log + [e] && e.serial == t.life[t.src[0]].serial
         && Older(r.life, r.dst, bound) ==
              Older(t.life, t.dst, bound) + (if Ends(t.subs[e.serial], e) then [] else [e.serial])
  }

  lemma FinishInOrder(t: Tasks, r: Tasks, h: nat, status: Status, now: nat, bound: nat)
    requires TaskInv(t, now, now + 1) && t.src != [] && t.running == [] && t.src[0] == h
    requires bound <= |t.subs| && h < |t.life| && t.life[h].serial < bound
    requires TaskInv(r, now, now + 1) && Extends(Start(t), r)
    requires Older(r.life, r.dst, bound) == Older(t.life, t.dst, bound)
    ensures r.running == [h] && h < |r.life| && h < |r.cb|
    ensures TurnInOrder(t, GiveBack(Judge(r, status), status, now), bound)
  {
    hide TaskInv, Older;
    StartFacts(t, now, now + 1);
    InvBasics(r, now, now + 1);
    FinishKeeps(Start(t), r, h, status, now);
    InvConserves(r, now, now + 1);
    GiveBackOrder(Judge(r, status), h, status, now, bound);
    var j := Judge(r, status);
    var f := GiveBack(j, status, now);
    var e := Event(r.life[h].serial, now, r.cb[h], status);
    assert f.log == t.log + [e] && e.serial == t.life[h].serial;
    assert t.subs[e.serial] == r.subs[e.serial];
    forall g | g in f.src ensures g < |t.life| && f.life[g].serial == t.life[g].serial {
      assert g in t.src[1..];
      assert g in t.src;
    }
  }

  lemma RunInFront(log: seq<Event>, e: Event, later: seq<Event>)
    requires |log| < |later| && log + [e] == later[..|log| + 1]
    ensures log == later[..|log|] && later[|log|..] == [e] + later[|log| + 1..]
  {
    assert (log + [e])[..|log|] == later[..|log|];
    assert later[|log|] == (log + [e])[|log|];
  }

  lemma FirstRan(e: Event, ran: seq<Event>, subs: seq<Submission>)
    ensures SerialsOf([e] + ran) == [e.serial] + SerialsOf(ran)
    ensures Survivors([e] + ran, subs) ==
            (if e.serial < |subs| && !Ends(subs[e.serial], e) then [e.serial] else []) + Survivors(ran, subs)
  {
    assert ([e] + ran)[1..] == ran;
  }

  lemma FirstSerial(life: seq<Life>, q: seq<nat>)
    requires q != [] && q[0] < |life|
    ensures Serials(life, q) == [life[q[0]].serial] + Serials(life, q[1..])
  {
  }

  /** Putting one turn in front of the rest of a drain. */
  lemma OrderStep(t: Tasks, m: Tasks, r: Tasks, bound: nat)
    requires TurnInOrder(t, m, bound)
    requires |m.log| <= |r.log| && m.log == r.log[..|m.log|]
    requires SerialsOf(r.log[|m.log|..]) == Serials(m.life, m.src)
    requires Older(r.life, r.dst, bound) == Older(m.life, m.dst, bound) + Survivors(r.log[|m.log|..], m.subs[..bound])
    ensures |t.log| <= |r.log| && t.log == r.log[..|t.log|]
    ensures SerialsOf(r.log[|t.log|..]) == Serials(t.life, t.src)
    ensures Older(r.life, r.dst, bound) == Older(t.life, t.dst, bound) + Survivors(r.log[|t.log|..], t.subs[..bound])
  {
    hide Serials, SerialsOf, Survivors, Older, Ends;
    var e: Event :| m.log == t.log + [e] && e.serial == t.life[t.src[0]].serial
                    && Older(m.life, m.dst, bound) ==
                         Older(t.life, t.dst, bound) + (if Ends(t.subs[e.serial], e) then [] else [e.serial]);
    RunInFront(t.log, e, r.log);
    assert t.subs[..bound] == m.subs[..bound];
    FirstRan(e, r.log[|m.log|..], t.subs[..bound]);
    SerialsFrame(t.life, m.life, m.src);
    FirstSerial(t.life, t.src);
  }
}
