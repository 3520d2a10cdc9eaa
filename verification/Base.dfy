// Shared vocabulary: the status codes of src/config.h, an option type, and the
// counting facts behind every "this queue can never be full" argument.
module Base {

  datatype Option<+T> = None | Some(value: T)

  datatype Status =
    | BadState | Param | Failed | OK | Interrupt
    | Timeout | FULL | EMPTY | BUSY | Unexpected

  /** A callback with its context; function 0 is the null pointer. */
  datatype Cb = Cb(fn: nat, context: int)

  /** What user code may ask of the task and timer loop while it runs. */
  datatype Call =
    | RunTask(cb: Cb)
    | RunTaskOnce(cb: Cb)
    | RunLater(cb: Cb, future: nat)
    | RunPeriodically(cb: Cb, interval: int)
    | StopLoop

  /** Delays are uint32_t; intervals are int32_t whose abs() is defined. */
  predicate LegalCall(c: Call) {
    match c
    case RunLater(_, future) => future < 0x1_0000_0000
    case RunPeriodically(_, interval) => -0x8000_0000 < interval < 0x8000_0000
    case _ => true
  }

  type UserCall = c: Call | LegalCall(c) witness StopLoop

  /** One invocation of user code: the calls it makes, then what it returns. */
  datatype Behaviour = Behaviour(calls: seq<UserCall>, status: Status)

  /** User code as a whole: what its k-th invocation in a run does.  Properties
      are proved for every oracle, hence for all user code. */
  type Oracle = nat -> Behaviour

  /** k places past `at` in a ring of n. */
  function Around(at: nat, k: nat, n: nat): nat
    requires at < n && k <= n
  {
    if at + k < n then at + k else at + k - n
  }

  /** The cell numbers of an array of n cells. */
  ghost function Cells(n: nat): (s: set<nat>)
    ensures forall i: nat :: i in s <==> i < n
  {
    if n == 0 then {} else Cells(n - 1) + {n - 1}
  }

  lemma {:induction false} CellsCard(n: nat)
    ensures |Cells(n)| == n
  {
    if n == 0 {
    } else {
      CellsCard(n - 1);
    }
  }

  lemma {:induction false} SubsetCard<T>(a: set<T>, b: set<T>)
    requires a <= b
    ensures |a| <= |b|
    decreases a
  {
    if a != {} {
      var x :| x in a;
      SubsetCard(a - {x}, b - {x});
    }
  }

  /** The pigeonhole bound: a pool of n cells has at most n live ones. */
  lemma LiveAtMost(live: set<nat>, n: nat)
    requires live <= Cells(n)
    ensures |live| <= n
  {
    CellsCard(n);
    SubsetCard(live, Cells(n));
  }

  lemma MultisetOfSet<T>(s: set<T>, x: T)
    ensures x in s ==> multiset(s - {x}) == multiset(s) - multiset{x}
    ensures x !in s ==> multiset(s + {x}) == multiset(s) + multiset{x}
  {
  }

  function Reverse<T>(s: seq<T>): (r: seq<T>)
    ensures |r| == |s| && multiset(r) == multiset(s)
  {
    if s == [] then []
    else
      assert s == [s[0]] + s[1..];
      Reverse(s[1..]) + [s[0]]
  }

  lemma ReverseStep<T>(rest: seq<T>, stack: seq<T>)
    requires rest != []
    ensures Reverse(rest) + stack == Reverse(rest[1..]) + ([rest[0]] + stack)
  {
  }

  lemma ReverseNone<T>(stack: seq<T>)
    ensures Reverse([]) + stack == stack
  {
  }

  /** What f makes of the elements of s, put together in order. */
  function Flat<A, B>(s: seq<A>, f: A -> seq<B>): seq<B> {
    if s == [] then [] else Flat(s[..|s| - 1], f) + f(s[|s| - 1])
  }

  lemma FlatSnoc<A, B>(s: seq<A>, x: A, f: A -> seq<B>)
    ensures Flat(s + [x], f) == Flat(s, f) + f(x)
  {
    assert (s + [x])[..|s|] == s;
  }

  lemma {:induction false} FlatFirst<A, B>(x: A, s: seq<A>, f: A -> seq<B>)
    ensures Flat([x] + s, f) == f(x) + Flat(s, f)
    decreases |s|
  {
    if s == [] {
      FlatSnoc([], x, f);
      assert [x] + s == [] + [x];
    } else {
      FlatFirst(x, s[..|s| - 1], f);
      assert ([x] + s)[..|s|] == [x] + s[..|s| - 1];
    }
  }

  lemma {:induction false} FlatAt<A, B>(s: seq<A>, i: nat, f: A -> seq<B>)
    requires i < |s|
    ensures Flat(s[..i], f) + f(s[i]) <= Flat(s, f)
    decreases |s|
  {
    if i < |s| - 1 {
      FlatAt(s[..|s| - 1], i, f);
      assert s[..|s| - 1][..i] == s[..i];
    }
  }

  lemma {:induction false} FlatHas<A, B>(s: seq<A>, f: A -> seq<B>)
    ensures forall x, y | x in s && y in f(x) :: y in Flat(s, f)
    ensures forall y | y in Flat(s, f) :: exists x :: x in s && y in f(x)
    decreases |s|
  {
    if s != [] {
      FlatHas(s[..|s| - 1], f);
      assert s == s[..|s| - 1] + [s[|s| - 1]];
    }
  }

  lemma FlatNth<A, B>(s: seq<A>, i: nat, f: A -> seq<B>, before: seq<B>, y: B)
    requires i < |s| && before + [y] <= f(s[i])
    ensures |Flat(s[..i], f)| + |before| < |Flat(s, f)| && Flat(s, f)[|Flat(s[..i], f)| + |before|] == y
  {
    hide Flat;
    FlatAt(s, i, f);
    assert f(s[i])[|before|] == (before + [y])[|before|];
    assert Flat(s, f)[|Flat(s[..i], f)| + |before|] == (Flat(s[..i], f) + f(s[i]))[|Flat(s[..i], f)| + |before|];
  }
}
