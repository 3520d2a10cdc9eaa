// The object pool of src/genPool.c.
// A pool is an array of cells; an object pointer is the number of its cell.
// Byte addresses survive only where the code computes with them: the owner of
// an object is found again from a 16-bit word offset stored in its cell.
module GenPool {
  import opened Base

  /** A release callback: function 0 is the null pointer. */
  datatype Hook = Hook(fn: nat, context: int)

  /** What a pool means: who is live, which live cells carry a release callback,
      and where the next search starts. */
  datatype Pool = Pool(size: nat, live: set<nat>, hooks: map<nat, Hook>, hint: nat)

  const OWN_ADDRESS: int := -1

  ghost predicate PoolOk(p: Pool) {
    p.hint < p.size && p.live <= Cells(p.size) && p.hooks.Keys <= p.live
  }

  // ---------------------------------------------------------------- searching

  function After(i: nat, size: nat): nat {
    if i + 1 >= size then 0 else i + 1
  }

  /** The first free cell among `left` cells, walking round from `at`. */
  function Scan(live: set<nat>, size: nat, at: nat, left: nat): Option<nat>
    decreases left
  {
    if left == 0 then None
    else if at !in live then Some(at)
    else Scan(live, size, After(at, size), left - 1)
  }

  function Pick(p: Pool): Option<nat> {
    Scan(p.live, p.size, p.hint, p.size)
  }

  lemma {:induction false} ScanMeaning(live: set<nat>, size: nat, at: nat, left: nat)
    requires at < size && left <= size
    ensures Scan(live, size, at, left) == None <==> forall k: nat | k < left :: Around(at, k, size) in live
    ensures Scan(live, size, at, left).Some? ==>
              exists k: nat :: k < left && Scan(live, size, at, left).value == Around(at, k, size) &&
                               Around(at, k, size) !in live && forall j: nat | j < k :: Around(at, j, size) in live
    decreases left
  {
    if left == 0 {
    } else if at !in live {
      assert Around(at, 0, size) == at;
    } else {
      ScanMeaning(live, size, After(at, size), left - 1);
      assert forall k: nat | k < left - 1 :: Around(After(at, size), k, size) == Around(at, k + 1, size);
      if Scan(live, size, at, left) == None {
        forall k: nat | k < left ensures Around(at, k, size) in live {
          if k > 0 {
            assert Around(After(at, size), k - 1, size) in live;
          }
        }
      } else {
        var k: nat :| k < left - 1 && Scan(live, size, at, left).value == Around(After(at, size), k, size)
                      && Around(After(at, size), k, size) !in live
                      && forall j: nat | j < k :: Around(After(at, size), j, size) in live;
        forall j: nat | j < k + 1 ensures Around(at, j, size) in live {
          if j > 0 {
            assert Around(After(at, size), j - 1, size) in live;
          }
        }
        assert Around(at, k + 1, size) !in live;
      }
    }
  }

  /** Allocation finds a cell exactly when one is free, and it is a free one. */
  lemma PickFindsFree(p: Pool)
    requires PoolOk(p)
    ensures Pick(p) == None <==> p.live == Cells(p.size)
    ensures Pick(p).Some? ==> Pick(p).value < p.size && Pick(p).value !in p.live
  {
    ScanMeaning(p.live, p.size, p.hint, p.size);
    if Pick(p) == None {
      forall i: nat | i < p.size ensures i in p.live {
        var k := if i >= p.hint then i - p.hint else i + p.size - p.hint;
        assert Around(p.hint, k, p.size) == i;
      }
    }
  }

  // --------------------------------------------------------------- operations

  function Alloc(p: Pool, fn: nat, context: int): (Pool, Option<nat>) {
    match Pick(p)
    case None => (p, None)
    case Some(h) =>
      var ctx := if context == OWN_ADDRESS then h as int else context;
      var hooks := if fn == 0 then p.hooks - {h} else p.hooks[h := Hook(fn, ctx)];
      (p.(live := p.live + {h}, hint := h, hooks := hooks), Some(h))
  }

  function Free(p: Pool, h: nat): Pool {
    p.(live := p.live - {h}, hooks := p.hooks - {h}, hint := h)
  }

  /** Release, given what the object's callback (if it has one) answers. */
  function Release(p: Pool, h: nat, answer: Status): (Pool, Status) {
    if h !in p.live then (p, Unexpected)
    else if h !in p.hooks then (Free(p, h), OK)
    else if answer == Interrupt then (p, OK)
    else (Free(p, h), answer)
  }

  function Extract(p: Pool, h: nat): Pool {
    p.(hooks := p.hooks - {h})
  }

  function SetHook(p: Pool, h: nat, fn: nat, context: int): (Pool, Status) {
    if h !in p.live then (p, Unexpected)
    else if fn == 0 then (Extract(p, h), OK)
    else (p.(hooks := p.hooks[h := Hook(fn, context)]), OK)
  }

  function Cleared(p: Pool): Pool {
    p.(live := {}, hooks := map[], hint := 0)
  }

  // ------------------------------------------------- what the operations promise

  ghost predicate FirstFree(p: Pool, h: nat)
    requires p.hint < p.size
  {
    exists k: nat :: k < p.size && h == Around(p.hint, k, p.size)
                     && forall j: nat | j < k :: Around(p.hint, j, p.size) in p.live
  }

  /** Allocation takes p to q: it fails, changing nothing, exactly if every cell is live;
      else the first free cell from the hint on becomes live, and nothing else changes
      but the hint and this cell's callback. */
  ghost predicate Allocated(p: Pool, fn: nat, context: int, q: Pool, r: Option<nat>)
    requires p.hint < p.size
  {
    match r
    case None => p.live == Cells(p.size) && q == p
    case Some(h) =>
      && h < p.size && h !in p.live && FirstFree(p, h)
      && q.size == p.size && q.live == p.live + {h} && q.hint == h && q.hooks - {h} == p.hooks - {h}
      && (h in q.hooks <==> fn != 0)
      && (fn != 0 ==> q.hooks[h] == Hook(fn, if context == OWN_ADDRESS then h else context))
  }

  lemma AllocExact(p: Pool, fn: nat, context: int)
    requires PoolOk(p)
    ensures Allocated(p, fn, context, Alloc(p, fn, context).0, Alloc(p, fn, context).1)
  {
    PickFindsFree(p);
    ScanMeaning(p.live, p.size, p.hint, p.size);
  }

  /** Release takes p to q: a cell that is not live answers Unexpected and nothing
      changes; a live one whose callback answers Interrupt keeps cell and callback; any
      other is given up, and it alone. */
  ghost predicate Released(p: Pool, h: nat, answer: Status, q: Pool, st: Status) {
    if h !in p.live then q == p && st == Unexpected
    else if h in p.hooks && answer == Interrupt then q == p && st == OK
    else
      && q.size == p.size && q.hint == h
      && (forall i :: i in q.live <==> i in p.live && i != h)
      && (forall i :: i in q.hooks <==> i in p.hooks && i != h) && (forall i | i in q.hooks :: q.hooks[i] == p.hooks[i])
      && st == if h in p.hooks then answer else OK
  }

  lemma ReleaseExact(p: Pool, h: nat, answer: Status)
    ensures Released(p, h, answer, Release(p, h, answer).0, Release(p, h, answer).1)
  {
  }

  /** Setting the callback of a live object, or of none. */
  ghost predicate HookSet(p: Pool, h: nat, fn: nat, context: int, q: Pool, st: Status) {
    if h !in p.live then q == p && st == Unexpected
    else
      && st == OK && q.size == p.size && q.hint == p.hint && q.live == p.live
      && (h in q.hooks <==> fn != 0) && (fn != 0 ==> q.hooks[h] == Hook(fn, context))
      && forall i | i != h :: (i in q.hooks <==> i in p.hooks) && (i in q.hooks ==> q.hooks[i] == p.hooks[i])
  }

  lemma SetHookExact(p: Pool, h: nat, fn: nat, context: int)
    ensures HookSet(p, h, fn, context, SetHook(p, h, fn, context).0, SetHook(p, h, fn, context).1)
  {
  }

  // ---------------------------------------------------------- arbitrary usage

  datatype PoolOp =
    | DoAlloc(fn: nat, context: int)
    | DoRelease(h: nat, answer: Status)
    | DoExtract(h: nat)
    | DoSetHook(h: nat, fn: nat, context: int)
    | DoClear

  function Apply(p: Pool, op: PoolOp): Pool {
    match op
    case DoAlloc(fn, context) => Alloc(p, fn, context).0
    case DoRelease(h, answer) => Release(p, h, answer).0
    case DoExtract(h) => Extract(p, h)
    case DoSetHook(h, fn, context) => SetHook(p, h, fn, context).0
    case DoClear => Cleared(p)
  }

  function ApplyAll(p: Pool, ops: seq<PoolOp>): Pool
    decreases |ops|
  {
    if ops == [] then p else ApplyAll(Apply(p, ops[0]), ops[1..])
  }

  /** How the number of live objects moves: up on a served allocation, down on
      an accepted release, to zero on a reset, and otherwise not at all. */
  function Gain(p: Pool, op: PoolOp): int {
    match op
    case DoAlloc(_, _) => if Alloc(p, 0, 0).1.Some? then 1 else 0
    case DoRelease(h, answer) => if h in p.live && !(h in p.hooks && answer == Interrupt) then -1 else 0
    case DoClear => -|p.live|
    case _ => 0
  }

  /** The sum of the single moves. */
  function GainAll(p: Pool, ops: seq<PoolOp>): int
    decreases |ops|
  {
    if ops == [] then 0 else Gain(p, ops[0]) + GainAll(Apply(p, ops[0]), ops[1..])
  }

  lemma ApplyKeeps(p: Pool, op: PoolOp)
    requires PoolOk(p)
    ensures PoolOk(Apply(p, op)) && Apply(p, op).size == p.size
    ensures |Apply(p, op).live| == |p.live| + Gain(p, op)
  {
    PickFindsFree(p);
    if op.DoRelease? && op.h in p.live {
      assert |p.live - {op.h}| == |p.live| - 1;
    }
  }

  lemma {:induction false} ApplyAllKeeps(p: Pool, ops: seq<PoolOp>)
    requires PoolOk(p)
    ensures PoolOk(ApplyAll(p, ops)) && ApplyAll(p, ops).size == p.size
    ensures |ApplyAll(p, ops).live| == |p.live| + GainAll(p, ops) <= p.size
    decreases |ops|
  {
    if ops == [] {
      LiveAtMost(p.live, p.size);
    } else {
      ApplyKeeps(p, ops[0]);
      ApplyAllKeeps(Apply(p, ops[0]), ops[1..]);
    }
  }

  /** Only an allocation brings a cell to life. */
  lemma {:induction false} NotAllocatedNotLive(p: Pool, ops: seq<PoolOp>, h: nat)
    requires h !in p.live && forall op | op in ops :: !op.DoAlloc?
    ensures h !in ApplyAll(p, ops).live
    decreases |ops|
  {
    if ops == [] {
    } else {
      NotAllocatedNotLive(Apply(p, ops[0]), ops[1..], h);
    }
  }

  /** The second of two releases with no allocation between is Unexpected, unless the
      first was cancelled; and it changes nothing. */
  lemma DoubleRelease(p: Pool, h: nat, a: Status, ops: seq<PoolOp>, b: Status)
    requires !(h in p.live && h in p.hooks && a == Interrupt) && forall op | op in ops :: !op.DoAlloc?
    ensures var q := ApplyAll(Apply(p, DoRelease(h, a)), ops);
            Release(q, h, b).1 == Unexpected && Apply(q, DoRelease(h, b)) == q
  {
    NotAllocatedNotLive(Apply(p, DoRelease(h, a)), ops, h);
  }

  // ---------------------------------------------------------------- addresses

  const WORDS: int := 0x1_0000   // theboss and guard are 16-bit fields

  /** What getPoolId makes of a cell: not an object, some pool and index, or a
      pointer to memory that is no pool header at all. */
  datatype PoolId = NotPool | InPool(pool: int, index: int) | Wild

  /** C division truncates toward zero. */
  function DivC(a: int, b: nat): int
    requires b > 0
  {
    if a >= 0 then a / b else -((-a) / b)
  }

  /** getPoolId: pre is the cell's address, cellSizes the pool headers in memory. */
  function GetPoolId(cellSizes: map<int, nat>, header: nat, pre: int, theboss: nat, guard: nat): PoolId {
    if theboss == 0 || guard == 0 then NotPool
    else
      var pool := pre - theboss * 4;
      if pool !in cellSizes || cellSizes[pool] == 0 then Wild
      else
        var delta := pre - (pool + header);
        var quot := DivC(delta, cellSizes[pool]);
        if delta - quot * cellSizes[pool] == 0 && quot == guard - 1 then InPool(pool, quot) else NotPool
  }

  /** Byte offset of cell i from the start of its pool. */
  function Offset(header: nat, cellSize: nat, i: nat): nat {
    header + cellSize * i
  }

  /** The way from a cell back to the pool header in words, as far as 16 bits hold it. */
  function WordOffset(header: nat, cellSize: nat, i: nat): nat {
    Offset(header, cellSize, i) / 4 % WORDS
  }

  lemma MultipleIsFar(b: nat, d: int)
    ensures d >= 1 ==> b * d >= b
    ensures d <= -1 ==> b * d + b <= 0
  {
  }

  lemma Quotient(a: nat, b: nat, q: nat)
    requires b > 0 && a == b * q
    ensures a / b == q
  {
    var r, m := a / b, a % b;
    assert a == b * r + m;
    assert b * q - b * r == b * (q - r);
    MultipleIsFar(b, q - r);
  }

  lemma FourEach(cellSize: nat, i: nat)
    requires cellSize >= 4
    ensures cellSize * i >= 4 * i
  {
    if i > 0 {
      FourEach(cellSize, i - 1);
      assert cellSize * i == cellSize * (i - 1) + cellSize;
    }
  }

  /** In such a pool the 16-bit guard holds every index plus one. */
  lemma GuardFits(header: nat, cellSize: nat, i: nat)
    requires header > 0 && header % 4 == 0 && cellSize > 0 && cellSize % 4 == 0
    requires Offset(header, cellSize, i) < 0x4_0000
    ensures i + 1 < WORDS
  {
    FourEach(cellSize, i);
  }

  lemma OffsetIsWords(header: nat, cellSize: nat, i: nat)
    requires header % 4 == 0 && cellSize % 4 == 0
    ensures Offset(header, cellSize, i) % 4 == 0
  {
    var c := cellSize / 4;
    assert cellSize == 4 * c;
    assert cellSize * i == 4 * (c * i);
    assert (4 * (c * i)) % 4 == 0;
  }

  /** The identity of an allocated object is recovered exactly when its cell
      starts fewer than 2^18 bytes into the pool; beyond that the 16-bit word
      offset has wrapped and points elsewhere (or reads as "free"). */
  lemma IdRecovered(cellSizes: map<int, nat>, pool: int, header: nat, i: nat)
    requires pool in cellSizes && cellSizes[pool] > 0
    requires header > 0 && header % 4 == 0 && cellSizes[pool] % 4 == 0
    ensures var cellSize := cellSizes[pool];
            var pre := pool + Offset(header, cellSize, i);
            GetPoolId(cellSizes, header, pre, WordOffset(header, cellSize, i), (i + 1) % WORDS) == InPool(pool, i)
            <==> Offset(header, cellSize, i) < 0x4_0000
  {
    var cellSize := cellSizes[pool];
    var off := Offset(header, cellSize, i);
    OffsetIsWords(header, cellSize, i);
    Quotient(off - header, cellSize, i);
    assert off / 4 * 4 == off;
    var w := off / 4;
    if off < 0x4_0000 {
      GuardFits(header, cellSize, i);
      assert w < WORDS && w % WORDS == w && w > 0;
    } else {
      assert w >= WORDS && w % WORDS < WORDS <= w;
    }
  }

  lemma OffsetGrows(header: nat, cellSize: nat, i: nat, j: nat)
    requires i <= j
    ensures Offset(header, cellSize, i) <= Offset(header, cellSize, j)
  {
    assert cellSize * j == cellSize * i + cellSize * (j - i);
  }

  // ------------------------------------------------------------------ the pool

  datatype Cell = Cell(theboss: nat, guard: nat, fn: nat, context: int)

  class ObjectPool {
    const address: int      // where the pool header lies
    const header: nat       // offsetof(GenPool_t, base)
    const cellSize: nat
    const onRelease: nat    // default release callback, 0 for none
    const base: array<Cell>
    var next: nat
    ghost var v: Pool

    ghost function Repr(): set<object> {
      {this, base}
    }

    /** The whole pool lies below 2^18 bytes, in 4-byte words. */
    ghost predicate Layout() {
      && header > 0 && header % 4 == 0
      && cellSize >= 12 && cellSize % 4 == 0
      && base.Length > 0
      && Offset(header, cellSize, base.Length - 1) < 0x4_0000
    }

    ghost predicate CellOk(i: nat)
      requires i < base.Length
      reads this, base
    {
      && (base[i].guard == 0 || base[i].guard == i + 1)
      && (i in v.live <==> base[i].theboss != 0)
      && (i in v.live ==> base[i].theboss == WordOffset(header, cellSize, i) && base[i].guard == i + 1)
      && (i in v.hooks <==> i in v.live && base[i].fn != 0)
      && (i in v.hooks ==> v.hooks[i] == Hook(base[i].fn, base[i].context))
    }

    ghost predicate Valid()
      reads this, base
      ensures Valid() ==> PoolOk(v) && v.size == base.Length
    {
      && Layout()
      && PoolOk(v) && v.size == base.Length && v.hint == next
      && base[next].guard == next + 1
      && forall i: nat | i < base.Length :: CellOk(i)
    }

    constructor (address: int, header: nat, cellSize: nat, len: nat, onRelease: nat)
      requires header > 0 && header % 4 == 0 && cellSize >= 12 && cellSize % 4 == 0 && len > 0
      requires Offset(header, cellSize, len - 1) < 0x4_0000
      ensures Valid() && fresh(this) && fresh(base)
      ensures v == Pool(len, {}, map[], 0) && this.onRelease == onRelease && base.Length == len
    {
      this.address, this.header, this.cellSize, this.onRelease := address, header, cellSize, onRelease;
      base := new Cell[len](i => Cell(0, if i == 0 then 1 else 0, 0, 0));
      next := 0;
      v := Pool(len, {}, map[], 0);
    }

    lemma WordFits(i: nat)
      requires Layout() && i < base.Length
      ensures WordOffset(header, cellSize, i) != 0
      ensures GetPoolId(map[address := cellSize], header, address + Offset(header, cellSize, i),
                        WordOffset(header, cellSize, i), i + 1) == InPool(address, i)
    {
      OffsetGrows(header, cellSize, i, base.Length - 1);
      GuardFits(header, cellSize, i);
      IdRecovered(map[address := cellSize], address, header, i);
    }

    /** getPoolId on this pool's own cells answers precisely for live objects. */
    method IsObject(obj: nat) returns (found: bool)
      requires Valid() && obj < base.Length
      ensures found <==> obj in v.live
    {
      WordFits(obj);
      assert CellOk(obj);
      var id := GetPoolId(map[address := cellSize], header, address + Offset(header, cellSize, obj),
                          base[obj].theboss, base[obj].guard);
      found := id.InPool?;
    }

    method Reset()
      requires Valid()
      modifies this, base
      ensures Valid() && v == Cleared(old(v))
      ensures v == Pool(old(v).size, {}, map[], 0)
    {
      var i := 0;
      while i < base.Length
        modifies base
        invariant 0 <= i <= base.Length
        invariant forall k: nat | k < i :: base[k].theboss == 0 && base[k].guard == if k == 0 then 1 else 0
      {
        base[i] := base[i].(theboss := 0, guard := if i == 0 then 1 else 0);
        i := i + 1;
      }
      next := 0;
      v := Cleared(v);
    }

    method Claim(at: nat, fn: nat, context: int)
      requires Valid() && at < base.Length && at !in v.live
      requires WordOffset(header, cellSize, at) != 0
      modifies this, base
      ensures Valid()
      ensures v == old(v).(live := old(v.live) + {at}, hint := at,
                           hooks := if fn == 0 then old(v.hooks) - {at} else old(v.hooks)[at := Hook(fn, context)])
    {
      assert forall i: nat | i < base.Length :: CellOk(i);
      base[at] := Cell(WordOffset(header, cellSize, at), at + 1, fn, context);
      next := at;
      v := v.(live := v.live + {at}, hint := at,
              hooks := if fn == 0 then v.hooks - {at} else v.hooks[at := Hook(fn, context)]);
      forall i: nat | i < base.Length ensures CellOk(i) {
        assert old(CellOk(i));
      }
    }

    method AllocateWithCallback(fn: nat, context: int) returns (r: Option<nat>)
      requires Valid()
      modifies this, base
      ensures Valid() && (v, r) == Alloc(old(v), fn, context) && Allocated(old(v), fn, context, v, r)
    {
      AllocExact(v, fn, context);
      var at := next;
      var index := base[at].guard - 1;
      var first := index;
      ghost var left := v.size;
      while base[at].theboss != 0
        invariant 0 < left <= v.size && at < base.Length && index == at && first == next
        invariant Pick(v) == Scan(v.live, v.size, at, left)
        invariant at == Around(next, v.size - left, v.size)
        decreases left
      {
        assert CellOk(at);
        if at >= base.Length - 1 {
          at, index := 0, 0;
        } else {
          at, index := at + 1, index + 1;
        }
        left := left - 1;
        if index == first {
          return None;
        }
      }
      assert CellOk(at);
      WordFits(at);
      Claim(at, fn, if context == OWN_ADDRESS then at else context);
      r := Some(at);
    }

    method Allocate() returns (r: Option<nat>)
      requires Valid()
      modifies this, base
      ensures Valid() && (v, r) == Alloc(old(v), onRelease, OWN_ADDRESS)
      ensures Allocated(old(v), onRelease, OWN_ADDRESS, v, r)
    {
      r := AllocateWithCallback(onRelease, OWN_ADDRESS);
    }

    /** The callback GenPool_return would run, if obj is an object that has one. */
    method CallbackOf(obj: nat) returns (cb: Option<Hook>)
      requires Valid() && obj < base.Length
      ensures cb == if obj in v.hooks then Some(v.hooks[obj]) else None
    {
      assert CellOk(obj);
      var found := IsObject(obj);
      cb := if found && base[obj].fn != 0 then Some(Hook(base[obj].fn, base[obj].context)) else None;
    }

    /** GenPool_return; answer is what the release callback said, when there is one. */
    method Return(obj: nat, answer: Status) returns (st: Status)
      requires Valid() && obj < base.Length
      modifies this, base
      ensures Valid() && (v, st) == Release(old(v), obj, answer)
      ensures obj !in old(v.live) ==> st == Unexpected && v == old(v)
      ensures Released(old(v), obj, answer, v, st)
    {
      ReleaseExact(v, obj, answer);
      st := OK;
      assert forall i: nat | i < base.Length :: CellOk(i);
      var found := IsObject(obj);
      if !found {
        return Unexpected;
      }
      assert CellOk(obj);
      if base[obj].fn != 0 {
        st := answer;
        if st == Interrupt {
          return OK;
        }
        base[obj] := base[obj].(fn := 0);
      }
      next := obj;
      base[obj] := base[obj].(theboss := 0);
      v := Free(v, obj);
      forall i: nat | i < base.Length ensures CellOk(i) {
        assert old(CellOk(i));
      }
    }

    method ExtractCallback(obj: nat) returns (cb: Hook)
      requires Valid() && obj < base.Length
      modifies this, base
      ensures Valid() && v == Extract(old(v), obj)
      ensures obj in old(v.hooks) ==> cb == old(v.hooks[obj])
      ensures obj !in old(v.hooks) ==> cb.fn == 0
      ensures v == old(v).(hooks := old(v.hooks) - {obj})
    {
      cb := Hook(0, 0);
      assert CellOk(obj);
      assert forall i: nat | i < base.Length :: CellOk(i);
      var found := IsObject(obj);
      if found {
        cb := Hook(base[obj].fn, base[obj].context);
        base[obj] := base[obj].(fn := 0);
      }
      v := Extract(v, obj);
      forall i: nat | i < base.Length ensures CellOk(i) {
        assert old(CellOk(i));
      }
    }

    method SetReturnCallback(obj: nat, fn: nat, context: int) returns (st: Status)
      requires Valid() && obj < base.Length
      modifies this, base
      ensures Valid() && (v, st) == SetHook(old(v), obj, fn, context) && HookSet(old(v), obj, fn, context, v, st)
    {
      SetHookExact(v, obj, fn, context);
      assert forall i: nat | i < base.Length :: CellOk(i);
      var found := IsObject(obj);
      if !found {
        return Unexpected;
      }
      base[obj] := base[obj].(context := context);
      base[obj] := base[obj].(fn := fn);
      v := SetHook(v, obj, fn, context).0;
      forall i: nat | i < base.Length ensures CellOk(i) {
        assert old(CellOk(i));
      }
      st := OK;
    }

    ghost function LiveBelow(n: nat): set<nat>
      reads this
    {
      set i | i in v.live && i < n
    }

    lemma LiveBelowStep(n: nat)
      ensures |LiveBelow(n + 1)| == |LiveBelow(n)| + (if n in v.live then 1 else 0)
      ensures LiveBelow(0) == {}
    {
      assert LiveBelow(n + 1) == if n in v.live then LiveBelow(n) + {n} else LiveBelow(n);
    }

    lemma LiveBelowAll()
      requires PoolOk(v)
      ensures LiveBelow(v.size) == v.live
      ensures LiveBelow(0) == {}
    {
    }

    /** GenPool_status: a pool that has only been used through these calls is
        always reported sound, with every cell that is not live available. */
    method CheckStatus() returns (st: Status, available: nat, total: nat)
      requires Valid()
      ensures st == OK && total == v.size && available == v.size - |v.live|
    {
      available, total := 0, 0;
      var guard := 1;
      LiveBelowAll();
      while guard <= base.Length
        invariant 1 <= guard <= base.Length + 1
        invariant available == guard - 1 - |LiveBelow(guard - 1)|
      {
        assert CellOk(guard - 1);
        LiveBelowStep(guard - 1);
        if base[guard - 1].guard == 0 || guard == base[guard - 1].guard {
          if base[guard - 1].theboss == 0 {
            available := available + 1;
          } else if WordOffset(header, cellSize, guard - 1) != base[guard - 1].theboss {
            st := BadState;
            return;
          }
        } else {
          st := BadState;
            return;
        }
        guard := guard + 1;
      }
      st, total := OK, guard - 1;
    }
  }
}
