/**
 The circular doubly linked list of misaka/include/list.h, in a memory that gives every
 list node by its address.
 */
module SlabList {

  datatype Links = Links(next: map<nat, nat>, prev: map<nat, nat>)

  /** `INIT_LIST_HEAD` */
  function InitHead(l: Links, p: nat): Links
  {
    Links(l.next[p := p], l.prev[p := p])
  }

  /** `__list_add` */
  function AddBetween(l: Links, entry: nat, prev: nat, next: nat): Links
  {
    Links(l.next[entry := next][prev := entry], l.prev[next := entry][entry := prev])
  }

  /** `list_add` */
  function ListAdd(l: Links, entry: nat, head: nat): Links
  {
    if head in l.next then AddBetween(l, entry, head, l.next[head]) else l
  }

  /** `list_del_init` */
  function ListDelInit(l: Links, entry: nat): Links
  {
    if entry in l.next && entry in l.prev then
      var prev, next := l.prev[entry], l.next[entry];
      InitHead(Links(l.next[prev := next], l.prev[next := prev]), entry)
    else l
  }

  /** The ring from `head` through the nodes and back. */
  function Node(head: nat, nodes: seq<nat>, i: int): nat
    requires 0 <= i <= |nodes| + 1
  {
    if 1 <= i <= |nodes| then nodes[i - 1] else head
  }

  predicate Joined(l: Links, a: nat, b: nat)
  {
    a in l.next && l.next[a] == b && b in l.prev && l.prev[b] == a
  }

  /** The `i`th hop of the ring. */
  predicate Hop(l: Links, head: nat, nodes: seq<nat>, i: int)
    requires 0 <= i <= |nodes|
  {
    Joined(l, Node(head, nodes, i), Node(head, nodes, i + 1))
  }

  ghost predicate Ring(l: Links, head: nat, nodes: seq<nat>)
  {
    && head !in nodes
    && (forall i, j :: 0 <= i < j < |nodes| ==> nodes[i] != nodes[j])
    && (forall i :: 0 <= i <= |nodes| ==> Hop(l, head, nodes, i))
  }

  lemma RingInit(l: Links, head: nat)
    ensures Ring(InitHead(l, head), head, [])
  {
  }

  /** `list_add` puts the entry right behind the head. */
  lemma RingAdd(l: Links, head: nat, nodes: seq<nat>, entry: nat)
    requires Ring(l, head, nodes) && entry != head && entry !in nodes
    ensures Ring(ListAdd(l, entry, head), head, [entry] + nodes)
  {
    var l', nodes' := ListAdd(l, entry, head), [entry] + nodes;
    assert Hop(l, head, nodes, 0);
    forall i | 0 <= i <= |nodes'| ensures Hop(l', head, nodes', i) {
      if i >= 2 {
        assert Hop(l, head, nodes, i - 1);
        RingNodesDiffer(head, nodes, i - 1, 0);
        RingNodesDiffer(head, nodes, i, 1);
      }
    }
  }

  lemma RingNodesDiffer(head: nat, nodes: seq<nat>, i: nat, k: nat)
    requires head !in nodes && (forall i, j :: 0 <= i < j < |nodes| ==> nodes[i] != nodes[j])
    requires k <= 1 && k < i <= |nodes| + k
    ensures Node(head, nodes, i) != Node(head, nodes, k)
  {
  }

  /** `list_del_init` of the first entry leaves the ring of the others. */
  lemma RingDelete(l: Links, head: nat, nodes: seq<nat>)
    requires Ring(l, head, nodes) && nodes != []
    ensures head in l.next && l.next[head] == nodes[0]
    ensures Ring(ListDelInit(l, nodes[0]), head, nodes[1..])
  {
    var l', nodes' := ListDelInit(l, nodes[0]), nodes[1..];
    assert Hop(l, head, nodes, 0);
    assert Hop(l, head, nodes, 1);
    forall i | 0 <= i <= |nodes'| ensures Hop(l', head, nodes', i) {
      if i >= 1 {
        assert Hop(l, head, nodes, i + 1);
      }
    }
  }

  /** What happens at other addresses does not touch a ring. */
  lemma RingElsewhere(l: Links, l': Links, head: nat, nodes: seq<nat>)
    requires Ring(l, head, nodes)
    requires forall p :: p == head || p in nodes ==>
      && (p in l.next ==> p in l'.next && l'.next[p] == l.next[p])
      && (p in l.prev ==> p in l'.prev && l'.prev[p] == l.prev[p])
    ensures Ring(l', head, nodes)
  {
    forall i | 0 <= i <= |nodes| ensures Hop(l', head, nodes, i) {
      assert Hop(l, head, nodes, i);
    }
  }
}
