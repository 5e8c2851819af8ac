/** The hand-written doubly linked list: insertion at the head, deletion in place, iteration that
    survives deletion of the node it just returned, and release through a free handler. */
module Lists {

  class Node<V> {
    var prev: Node?<V>
    var next: Node?<V>
    const value: V

    constructor (v: V)
      ensures value == v
    {
      value := v;
      prev, next := null, null;
    }
  }

  /** The values stored in a chain of nodes, in chain order. */
  function ValuesOf<V>(nodes: seq<Node<V>>): (vs: seq<V>)
    ensures |vs| == |nodes|
    ensures forall i :: 0 <= i < |nodes| ==> vs[i] == nodes[i].value
  {
    if nodes == [] then [] else [nodes[0].value] + ValuesOf(nodes[1..])
  }

  lemma ValuesOfAppend<V>(a: seq<Node<V>>, b: seq<Node<V>>)
    ensures ValuesOf(a + b) == ValuesOf(a) + ValuesOf(b)
  {
  }

  /** The node at a position of a chain, null outside it. */
  function Nth<V>(nodes: seq<Node<V>>, i: int): Node?<V> {
    if 0 <= i < |nodes| then nodes[i] else null
  }

  ghost predicate Distinct<T>(s: seq<T>) {
    forall i, j :: 0 <= i < j < |s| ==> s[i] != s[j]
  }

  function Reverse<T>(s: seq<T>): (r: seq<T>)
    ensures |r| == |s|
  {
    if s == [] then [] else Reverse(s[1..]) + [s[0]]
  }

  lemma {:induction false} ReverseAppend<T>(a: seq<T>, b: seq<T>)
    ensures Reverse(a + b) == Reverse(b) + Reverse(a)
  {
    if a == [] {
      assert a + b == b;
    } else {
      assert (a + b)[0] == a[0] && (a + b)[1..] == a[1..] + b;
      ReverseAppend(a[1..], b);
    }
  }

  class List<V(==)> {
    var head: Node?<V>
    var tail: Node?<V>
    var length: nat
    var free: bool  // a free handler is installed

    ghost var nodes: seq<Node<V>>  // the chain from head to tail
    ghost var repr: set<object>    // the list and every node ever allocated for it
    ghost var freed: seq<V>        // every value passed to the free handler, in order

    /** The pointers spell out the chain in both directions and no node occurs twice. */
    ghost predicate Valid()
      reads this, repr
      ensures Valid() ==> this in repr
    {
      && this in repr
      && (forall n :: n in nodes ==> n in repr)
      && Distinct(nodes)
      && length == |nodes|
      && (if |nodes| == 0 then head == null && tail == null else
          head == nodes[0] && tail == nodes[|nodes| - 1] && nodes[0].prev == null && nodes[|nodes| - 1].next == null)
      && (forall i {:trigger nodes[i].next} :: 0 <= i < |nodes| - 1 ==> nodes[i].next == nodes[i + 1])
      && (forall i {:trigger nodes[i].prev} :: 1 <= i < |nodes| ==> nodes[i].prev == nodes[i - 1])
    }

    ghost function Values(): (vs: seq<V>)
      reads this`nodes
    {
      ValuesOf(nodes)
    }

    constructor ()
      ensures Valid() && nodes == [] && repr == {this} && freed == [] && !free
    {
      head, tail, length, free := null, null, 0, false;
      nodes, repr, freed := [], {this}, [];
    }

    method SetFreeMethod()
      requires Valid()
      modifies this`free
      ensures Valid() && free
    {
      free := true;
    }

    method AddValue(value: V)
      requires Valid()
      modifies repr
      ensures Valid()
      ensures |nodes| == |old(nodes)| + 1 && fresh(nodes[0]) && nodes[1..] == old(nodes)
      ensures repr == old(repr) + {nodes[0]} && freed == old(freed) && free == old(free)
      ensures Values() == [value] + old(Values())
    {
      var node := new Node(value);
      ghost var before := nodes;
      if length == 0 {
        head, tail := node, node;
        node.prev, node.next := null, null;
      } else {
        node.prev, node.next := null, head;
        head.prev := node;
        head := node;
      }
      length := length + 1;
      nodes, repr := [node] + nodes, repr + {node};
      assert nodes[1..] == before;
    }

    method DeleteNode(node: Node<V>, ghost k: nat)
      requires Valid() && k < |nodes| && node == nodes[k]
      modifies repr
      ensures Valid()
      ensures nodes == old(nodes)[..k] + old(nodes)[k + 1..]
      ensures freed == old(freed) + if free then [node.value] else []
      ensures repr == old(repr) && free == old(free)
    {
      Unlink(node, k);
      if free { freed := freed + [node.value]; }
    }

    method Unlink(node: Node<V>, ghost k: nat)
      requires Valid() && k < |nodes| && node == nodes[k]
      modifies repr
      ensures Valid()
      ensures nodes == old(nodes)[..k] + old(nodes)[k + 1..]
      ensures repr == old(repr) && free == old(free) && freed == old(freed)
    {
      if node.prev != null { node.prev.next := node.next; } else { head := node.next; }
      if node.next != null { node.next.prev := node.prev; } else { tail := node.prev; }
      length := length - 1;
      nodes := nodes[..k] + nodes[k + 1..];
    }

    /** emq_list_release: each remaining value goes to the free handler, from the head to the tail. */
    method Release()
      requires Valid()
      modifies this`freed
      ensures freed == old(freed) + if free then Values() else []
    {
      var current := head;
      var n := length;
      ghost var k := 0;
      ghost var values := Values();
      assert values[..0] == [];
      while n != 0
        invariant n + k == |nodes| && current == Nth(nodes, k)
        invariant freed == old(freed) + if free then values[..k] else []
      {
        var next := current.next;
        if free { freed := freed + [current.value]; }
        assert values[..k + 1] == values[..k] + [values[k]];
        current, n, k := next, n - 1, k + 1;
      }
      assert values[..k] == values;
    }
  }

  /** The iterator lives on its user's stack: one pointer to the node to be returned next. */
  datatype Iterator<!V> = Iterator(next: Node?<V>)

  method Rewind<V>(list: List<V>) returns (iter: Iterator<V>)
    requires list.Valid()
    ensures iter.next == Nth(list.nodes, 0)
  {
    iter := Iterator(list.head);
  }

  /** Returns the node at the iterator's position and moves past it. Only a node of the chain is read. */
  method Next<V>(list: List<V>, iter: Iterator<V>, ghost k: nat) returns (current: Node?<V>, rest: Iterator<V>)
    requires list.Valid() && k <= |list.nodes| && iter.next == Nth(list.nodes, k)
    ensures current == Nth(list.nodes, k)
    ensures if k == |list.nodes| then current == null else current == list.nodes[k]
    ensures rest.next == Nth(list.nodes, k + 1)
  {
    current := iter.next;
    rest := if current == null then iter else Iterator(current.next);
  }

  /** Following prev from the tail visits the reverse of what following next from the head visits. */
  ghost function Forward<V>(node: Node?<V>, fuel: nat): seq<Node<V>>
    reads *
  {
    if node == null || fuel == 0 then [] else [node] + Forward(node.next, fuel - 1)
  }

  ghost function Backward<V>(node: Node?<V>, fuel: nat): seq<Node<V>>
    reads *
  {
    if node == null || fuel == 0 then [] else [node] + Backward(node.prev, fuel - 1)
  }

  lemma {:induction false} ForwardIsSuffix<V>(list: List<V>, k: nat, fuel: nat)
    requires list.Valid() && k <= |list.nodes| && fuel >= |list.nodes| - k
    ensures Forward(Nth(list.nodes, k), fuel) == list.nodes[k..]
    decreases fuel
  {
    if k < |list.nodes| {
      assert list.nodes[k].next == Nth(list.nodes, k + 1);
      ForwardIsSuffix(list, k + 1, fuel - 1);
    }
  }

  lemma {:induction false} BackwardIsReversedPrefix<V>(list: List<V>, k: nat, fuel: nat)
    requires list.Valid() && k <= |list.nodes| && fuel >= k
    ensures Backward(Nth(list.nodes, k - 1), fuel) == Reverse(list.nodes[..k])
    decreases k
  {
    if k > 0 {
      assert list.nodes[k - 1].prev == Nth(list.nodes, k - 2);
      BackwardIsReversedPrefix(list, k - 1, fuel - 1);
      assert list.nodes[..k] == list.nodes[..k - 1] + [list.nodes[k - 1]];
      ReverseAppend(list.nodes[..k - 1], [list.nodes[k - 1]]);
    }
  }

  /** A walk from either end, however long it may go on, meets every node once and stops; the walk
      back is the reverse of the walk forth, and its length is the length field. */
  lemma WalksAreReversed<V>(list: List<V>, fuel: nat)
    requires list.Valid() && fuel >= list.length
    ensures Forward(list.head, fuel) == list.nodes
    ensures Backward(list.tail, fuel) == Reverse(Forward(list.head, fuel))
    ensures |Forward(list.head, fuel)| == list.length && Distinct(Forward(list.head, fuel))
    ensures (list.head == null <==> list.length == 0) && (list.tail == null <==> list.length == 0)
  {
    ForwardIsSuffix(list, 0, fuel);
    BackwardIsReversedPrefix(list, |list.nodes|, fuel);
    assert list.nodes[..|list.nodes|] == list.nodes;
  }
}
