// The intrusive singly linked stacks of src/linkNode.c.  A node is named by its
// cell number; link[n] is the node's next field and NIL is the null pointer.
module LinkNode {

  const NIL: int := -1

  /** head leads, link by link, through exactly these nodes and then to NIL. */
  ghost predicate Chain(link: seq<int>, head: int, nodes: seq<nat>)
    decreases |nodes|
  {
    if nodes == [] then head == NIL
    else head == nodes[0] && 0 <= head < |link| && Chain(link, link[head], nodes[1..])
  }

  lemma EmptyChain(link: seq<int>, head: int, nodes: seq<nat>)
    ensures Chain(link, head, nodes) ==> (head == NIL <==> nodes == [])
    ensures head == NIL && nodes == [] ==> Chain(link, head, nodes)
  {
  }

  /** Rewriting the link of a node outside a chain leaves the chain alone. */
  lemma {:induction false} ChainFrame(link: seq<int>, head: int, nodes: seq<nat>, node: nat, value: int)
    requires Chain(link, head, nodes) && node < |link| && node !in nodes
    ensures Chain(link[node := value], head, nodes)
    decreases |nodes|
  {
    if nodes == [] {
    } else {
      ChainFrame(link, link[head], nodes[1..], node, value);
    }
  }

  lemma {:induction false} ChainSuffix(link: seq<int>, head: int, nodes: seq<nat>, j: nat)
    requires Chain(link, head, nodes) && j < |nodes|
    ensures Chain(link, nodes[j], nodes[j..])
    decreases |nodes|
  {
    if j == 0 {
    } else {
      ChainSuffix(link, link[head], nodes[1..], j - 1);
      assert nodes[1..][j - 1..] == nodes[j..];
    }
  }

  /** The links determine the nodes. */
  lemma {:induction false} ChainUnique(link: seq<int>, head: int, a: seq<nat>, b: seq<nat>)
    requires Chain(link, head, a) && Chain(link, head, b)
    ensures a == b
    decreases |a|
  {
    if a != [] && b != [] {
      ChainUnique(link, link[head], a[1..], b[1..]);
      assert a == [a[0]] + a[1..] && b == [b[0]] + b[1..];
    }
  }

  /** A chain that ends in NIL never meets a node twice, so every walk ends. */
  lemma {:induction false} ChainAcyclic(link: seq<int>, head: int, nodes: seq<nat>)
    requires Chain(link, head, nodes)
    ensures forall i, j | 0 <= i < j < |nodes| :: nodes[i] != nodes[j]
    decreases |nodes|
  {
    if nodes == [] {
    } else {
      ChainAcyclic(link, link[head], nodes[1..]);
      forall j | 0 < j < |nodes| ensures nodes[0] != nodes[j] {
        if nodes[0] == nodes[j] {
          ChainSuffix(link, head, nodes, j);
          ChainUnique(link, head, nodes, nodes[j..]);
          assert false;
        }
      }
    }
  }

  ghost predicate Ends(link: seq<int>, head: int) {
    exists nodes :: Chain(link, head, nodes)
  }

  /** From place j of the old chain on, the new links lead to the pushed node. */
  lemma {:induction false} LeadsBack(link: seq<int>, head: int, nodes: seq<nat>, node: nat, j: nat, k: nat, rest: seq<nat>)
    requires Chain(link, head, nodes) && j <= k < |nodes| && nodes[k] == node && node < |link|
    requires Chain(link[node := head], nodes[j], rest)
    ensures node in rest
    decreases k - j
  {
    assert rest != [] && rest[0] == nodes[j];
    if j < k {
      ChainAcyclic(link, head, nodes);
      ChainSuffix(link, head, nodes, j);
      LeadsBack(link, head, nodes, node, j + 1, k, rest[1..]);
    }
  }

  /** What pushing does to the links ends in NIL exactly if the node was not on the
      chain: a node that was is put on a loop. */
  lemma PushEndsIffNew(link: seq<int>, head: int, nodes: seq<nat>, node: nat)
    requires Chain(link, head, nodes) && node < |link|
    ensures node !in nodes <==> Ends(link[node := head], node)
  {
    if node !in nodes {
      ChainFrame(link, head, nodes, node, head);
      assert ([node] + nodes)[1..] == nodes;
      assert Chain(link[node := head], node, [node] + nodes);
    } else {
      var k :| 0 <= k < |nodes| && nodes[k] == node;
      if Ends(link[node := head], node) {
        var after :| Chain(link[node := head], node, after);
        ChainAcyclic(link[node := head], node, after);
        LeadsBack(link, head, nodes, node, 0, k, after[1..]);
      }
    }
  }

  method StackPop(link: array<int>, head: int, ghost nodes: seq<nat>) returns (node: int, newHead: int)
    requires Chain(link[..], head, nodes)
    ensures nodes == [] ==> node == NIL && newHead == NIL
    ensures nodes != [] ==> node == nodes[0] && Chain(link[..], newHead, nodes[1..])
  {
    node := head;
    newHead := head;
    if node != NIL {
      newHead := link[node];
    }
  }

  method StackPush(link: array<int>, head: int, node: nat, ghost nodes: seq<nat>) returns (newHead: int)
    requires node < link.Length
    modifies link
    ensures newHead == node && link[..] == old(link[..])[node := head]
    ensures old(Chain(link[..], head, nodes)) && node !in nodes ==> Chain(link[..], newHead, [node] + nodes)
  {
    if Chain(link[..], head, nodes) && node !in nodes {
      ChainFrame(link[..], head, nodes, node, head);
    }
    if head != NIL {
      link[node] := head;
    } else {
      link[node] := NIL;
    }
    newHead := node;
    assert link[..] == old(link[..])[node := head];
    assert ([node] + nodes)[1..] == nodes;
  }
}
