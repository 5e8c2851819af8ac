/** Subscription records and the two loops over a subscription list: lookup of an event's name and
    removal of every record of a name. */
module Registry {
  import opened Bytes
  import opened Lists

  type Callback = nat

  /** The records keep their strings in zeroed arrays of 64 and 32 bytes. */
  datatype Subscription =
    | QueueSubscription(name: bytes, callback: Callback)
    | ChannelSubscription(name: bytes, channel: bytes, callback: Callback)

  /** A record's name as a C string. */
  function NameOf(s: Subscription): CString {
    CStr(s.name)
  }

  function QueueRecord(name: CString, callback: Callback): (s: Subscription)
    requires |name| < 64
    ensures WellFormed(s) && s.QueueSubscription? && NameOf(s) == name && s.callback == callback
  {
    PadRoundTrip(name, 64);
    QueueSubscription(Pad(name, 64), callback)
  }

  function ChannelRecord(name: CString, topic: CString, callback: Callback): (s: Subscription)
    requires |name| < 64 && |topic| < 32
    ensures WellFormed(s) && s.ChannelSubscription? && NameOf(s) == name && CStr(s.channel) == topic
    ensures s.callback == callback
  {
    PadRoundTrip(name, 64);
    PadRoundTrip(topic, 32);
    ChannelSubscription(Pad(name, 64), Pad(topic, 32), callback)
  }

  /** A string in an array: terminated inside it and zero from there on. */
  predicate Padded(b: bytes, n: nat) {
    |b| == n && Terminated(b) && b == Pad(CStr(b), n)
  }

  predicate WellFormed(s: Subscription) {
    Padded(s.name, 64) && (s.ChannelSubscription? ==> Padded(s.channel, 32))
  }

  predicate AllWellFormed(subs: seq<Subscription>) {
    forall i :: 0 <= i < |subs| ==> WellFormed(subs[i])
  }

  /** The records of the channel list are channel records. */
  predicate AllChannels(subs: seq<Subscription>) {
    forall i :: 0 <= i < |subs| ==> subs[i].ChannelSubscription?
  }

  /** The records of a name, in order. */
  function Named(subs: seq<Subscription>, name: CString): (r: seq<Subscription>)
    ensures |r| <= |subs|
  {
    if subs == [] then []
    else (if NameOf(subs[0]) == name then [subs[0]] else []) + Named(subs[1..], name)
  }

  /** The records of all other names, in order. */
  function Without(subs: seq<Subscription>, name: CString): (r: seq<Subscription>)
    ensures |r| <= |subs|
  {
    if subs == [] then []
    else (if NameOf(subs[0]) == name then [] else [subs[0]]) + Without(subs[1..], name)
  }

  lemma {:induction false} NamedAppend(a: seq<Subscription>, b: seq<Subscription>, name: CString)
    ensures Named(a + b, name) == Named(a, name) + Named(b, name)
  {
    hide NameOf;
    if a == [] {
      assert a + b == b;
    } else {
      assert (a + b)[0] == a[0] && (a + b)[1..] == a[1..] + b;
      NamedAppend(a[1..], b, name);
      Associative(if NameOf(a[0]) == name then [a[0]] else [], Named(a[1..], name), Named(b, name));
    }
  }

  lemma {:induction false} WithoutAppend(a: seq<Subscription>, b: seq<Subscription>, name: CString)
    ensures Without(a + b, name) == Without(a, name) + Without(b, name)
  {
    hide NameOf;
    if a == [] {
      assert a + b == b;
    } else {
      assert (a + b)[0] == a[0] && (a + b)[1..] == a[1..] + b;
      WithoutAppend(a[1..], b, name);
    }
  }

  /** Removing a name leaves no record of it and the records of every other name as they were. */
  lemma {:induction false} NamedWithout(subs: seq<Subscription>, gone: CString, name: CString)
    ensures Named(Without(subs, gone), name) == if name == gone then [] else Named(subs, name)
  {
    hide NameOf;
    if subs != [] {
      NamedWithout(subs[1..], gone, name);
      var kept := if NameOf(subs[0]) == gone then [] else [subs[0]];
      NamedAppend(kept, Without(subs[1..], gone), name);
    }
  }

  /** What is kept and what is removed make up what was there. */
  lemma {:induction false} WithoutPartition(subs: seq<Subscription>, name: CString)
    ensures multiset(subs) == multiset(Without(subs, name)) + multiset(Named(subs, name))
  {
    hide NameOf;
    if subs != [] {
      assert subs == [subs[0]] + subs[1..];
      WithoutPartition(subs[1..], name);
    }
  }

  lemma {:induction false} WithoutWellFormed(subs: seq<Subscription>, name: CString)
    requires AllWellFormed(subs)
    ensures AllWellFormed(Without(subs, name))
  {
    hide NameOf;
    if subs != [] {
      WithoutWellFormed(subs[1..], name);
    }
  }

  lemma {:induction false} WithoutChannels(subs: seq<Subscription>, name: CString)
    requires AllChannels(subs)
    ensures AllChannels(Without(subs, name))
  {
    hide NameOf;
    if subs != [] {
      WithoutChannels(subs[1..], name);
    }
  }

  // ----- the loops -----

  /** An empty subscription list with its free handler installed. */
  method NewRegistry() returns (list: List<Subscription>)
    ensures list.Valid() && fresh(list.repr) && list.free
    ensures list.Values() == [] && list.freed == [] && AllWellFormed(list.Values())
  {
    list := new List();
    list.SetFreeMethod();
  }

  /** The nodes whose records survive the removal of a name. */
  ghost function KeepNodes(nodes: seq<Node<Subscription>>, name: CString): seq<Node<Subscription>> {
    if nodes == [] then []
    else (if NameOf(nodes[0].value) == name then [] else [nodes[0]]) + KeepNodes(nodes[1..], name)
  }

  lemma {:induction false} KeepNodesAppend(a: seq<Node<Subscription>>, b: seq<Node<Subscription>>, name: CString)
    ensures KeepNodes(a + b, name) == KeepNodes(a, name) + KeepNodes(b, name)
  {
    hide NameOf;
    if a == [] {
      assert a + b == b;
    } else {
      assert (a + b)[0] == a[0] && (a + b)[1..] == a[1..] + b;
      KeepNodesAppend(a[1..], b, name);
    }
  }

  lemma {:induction false} KeepNodesValues(nodes: seq<Node<Subscription>>, name: CString)
    ensures ValuesOf(KeepNodes(nodes, name)) == Without(ValuesOf(nodes), name)
  {
    hide NameOf;
    if nodes != [] {
      KeepNodesValues(nodes[1..], name);
      ValuesOfAppend(if NameOf(nodes[0].value) == name then [] else [nodes[0]], KeepNodes(nodes[1..], name));
    }
  }

  /** One turn of the removal loop, at the node after a prefix of the list. */
  lemma RemovalStep(all: seq<Node<Subscription>>, i: nat, name: CString)
    requires i < |all|
    ensures all[..i + 1] == all[..i] + [all[i]] && ValuesOf(all)[i] == all[i].value
    ensures var removed := NameOf(all[i].value) == name;
      && KeepNodes(all[..i + 1], name)
         == KeepNodes(all[..i], name) + (if removed then [] else [all[i]])
      && Named(ValuesOf(all)[..i + 1], name)
         == Named(ValuesOf(all)[..i], name) + if removed then [all[i].value] else []
  {
    hide NameOf;
    KeepNodesAppend(all[..i], [all[i]], name);
    var values := ValuesOf(all);
    assert values[..i + 1] == values[..i] + [values[i]];
    assert all[..i + 1] == all[..i] + [all[i]];
    NamedAppend(values[..i], [values[i]], name);
  }

  lemma RemovalSplit<T>(kept: seq<T>, all: seq<T>, i: nat, removed: bool)
    requires i < |all|
    ensures var s := kept + all[i..];
      && s[|kept|] == all[i]
      && s[..|kept|] + s[if removed then |kept| + 1 else |kept|..]
         == kept + (if removed then [] else [all[i]]) + all[i + 1..]
  {
  }

  lemma NthJoint(kept: seq<Node<Subscription>>, all: seq<Node<Subscription>>, i: nat)
    requires i <= |all|
    ensures Nth(kept + all[i..], |kept|) == Nth(all, i)
    ensures Nth(kept + all[i..], |kept| + 1) == Nth(all, i + 1)
  {
  }

  lemma Associative<T>(a: seq<T>, b: seq<T>, c: seq<T>)
    ensures (a + b) + c == a + (b + c)
  {
  }

  /** strcmp of a record's name against a C string that a request builder has accepted. */
  predicate SameName(s: Subscription, name: CString)
    requires WellFormed(s) && |name| < 64
    ensures SameName(s, name) <==> NameOf(s) == name
  {
    var b := name + [0];
    assert b[|name|] == 0 && b[0..] == b && s.name[0..] == s.name;
    StrEqIsEquality(b, s.name, 0);
    CStrUnique(b, name);
    StrEq(b, s.name, 0)
  }

  /** strcmp of a record's name against the 64 bytes of an event, terminated or not. */
  predicate MatchesEvent(s: Subscription, name: bytes)
    requires WellFormed(s) && |name| == 64
    ensures MatchesEvent(s, name) <==> NameOf(s) == CStr(name)
  {
    assert s.name[0..] == s.name && name[0..] == name;
    StrEqIsEquality(s.name, name, 0);
    StrEq(s.name, name, 0)
  }

  /** The state of that loop before its i-th turn: what is left of the nodes already visited, then all
      the nodes still to be visited, the next of them in hand and the one after it in the iterator. */
  ghost predicate Removing(list: List<Subscription>, all: seq<Node<Subscription>>, name: CString,
                           freed: seq<Subscription>, i: nat, node: Node?<Subscription>, iter: Iterator<Subscription>)
    reads list, list.repr
  {
    && i <= |all|
    && list.Valid()
    && list.nodes == KeepNodes(all[..i], name) + all[i..]
    && list.freed == freed + (if list.free then Named(ValuesOf(all)[..i], name) else [])
    && node == Nth(all, i) && iter.next == Nth(all, i + 1)
  }

  lemma RemovalStart(list: List<Subscription>, name: CString, node: Node?<Subscription>, iter: Iterator<Subscription>)
    requires list.Valid() && node == Nth(list.nodes, 0) && iter.next == Nth(list.nodes, 1)
    ensures Removing(list, list.nodes, name, list.freed, 0, node, iter)
  {
    hide NameOf, List.Valid;
    assert list.nodes == [] + list.nodes[0..] && list.nodes[..0] == [];
    assert ValuesOf(list.nodes)[..0] == [];
  }

  lemma RemovalNode(list: List<Subscription>, all: seq<Node<Subscription>>, name: CString,
                    freed: seq<Subscription>, i: nat, node: Node<Subscription>, iter: Iterator<Subscription>)
    ensures Removing(list, all, name, freed, i, node, iter) ==> i < |all| && all[..i + 1] == all[..i] + [node]
    ensures Removing(list, all, name, freed, i, node, iter) && AllWellFormed(ValuesOf(all)) ==> WellFormed(node.value)
  {
    hide WellFormed, List.Valid, KeepNodes, Named, NameOf;
    if Removing(list, all, name, freed, i, node, iter) {
      assert node.value == ValuesOf(all)[i];
    }
  }

  /** What the loop has done when it ends, or breaks off, before its i-th turn. */
  lemma RemovalEnd(list: List<Subscription>, all: seq<Node<Subscription>>, name: CString,
                   freed: seq<Subscription>, i: nat, node: Node?<Subscription>, iter: Iterator<Subscription>)
    requires Removing(list, all, name, freed, i, node, iter)
    ensures list.Valid() && i <= |all| && (node == null <==> i == |all|) && (i == |all| ==> all[..i] == all)
    ensures list.nodes == KeepNodes(all[..i], name) + all[i..]
    ensures list.Values() == Without(ValuesOf(all[..i]), name) + ValuesOf(all[i..])
    ensures list.freed == freed + if list.free then Named(ValuesOf(all[..i]), name) else []
  {
    hide NameOf, KeepNodes, Named, Without;
    assert ValuesOf(all)[..i] == ValuesOf(all[..i]);
    KeepNodesValues(all[..i], name);
    ValuesOfAppend(KeepNodes(all[..i], name), all[i..]);
  }

  lemma PointeeFits(p: NamePointer, list: List<Subscription>)
    requires AllWellFormed(list.Values()) && Readable(p, list.nodes)
    ensures |Pointee(p)| < 64 && Live(p, list.nodes, 0) && (list.Valid() ==> Distinct(list.nodes))
  {
    if p.Inside? {
      var i :| 0 <= i < |list.nodes| && list.nodes[i] == p.owner;
      assert WellFormed(list.Values()[i]);
    }
  }

  /** One turn of that loop: the node in hand is deleted in place when its record has the name. */
  method RemovalTurn(list: List<Subscription>, name: CString, node: Node<Subscription>, iter: Iterator<Subscription>,
                     ghost all: seq<Node<Subscription>>, ghost freed: seq<Subscription>, ghost i: nat)
    returns (next: Node?<Subscription>, rest: Iterator<Subscription>)
    requires Removing(list, all, name, freed, i, node, iter)
    requires WellFormed(node.value) && |name| < 64
    modifies list.repr
    ensures i < |all| && Removing(list, all, name, freed, i + 1, next, rest)
    ensures list.repr == old(list.repr) && list.free == old(list.free)
  {
    hide List.Valid, KeepNodes, Named, NameOf, WellFormed, SameName, ValuesOf;
    ghost var kept, gone := KeepNodes(all[..i], name), Named(ValuesOf(all)[..i], name);
    RemovalStep(all, i, name);
    RemovalSplit(kept, all, i, NameOf(node.value) == name);
    if SameName(node.value, name) {
      list.DeleteNode(node, |kept|);
      Associative(freed, gone, [node.value]);
    }
    NthJoint(KeepNodes(all[..i + 1], name), all, i + 1);
    next, rest := Next(list, iter, |KeepNodes(all[..i + 1], name)|);
  }

  /** The pointer an unsubscribe is given for a name: to the caller's own string, or into a record of the list,
      as the one that a callback is handed. */
  datatype NamePointer = Own(name: CString) | Inside(owner: Node<Subscription>)

  function Pointee(p: NamePointer): CString {
    match p
    case Own(name) => name
    case Inside(owner) => NameOf(owner.value)
  }

  /** The pointer can be read: the string fits its array, or the record is on the list. */
  ghost predicate Readable(p: NamePointer, nodes: seq<Node<Subscription>>) {
    match p
    case Own(name) => |name| < 64
    case Inside(owner) => owner in nodes
  }

  /** The record that owns the string is not followed by another, if one of the list owns it. */
  ghost predicate Outlives(p: NamePointer, nodes: seq<Node<Subscription>>) {
    p.Inside? ==> nodes != [] && p.owner == nodes[|nodes| - 1]
  }

  /** The loop of every unsubscribe: each node is visited once, in order, and deleted in place when its
      record has the name; the survivors are the same nodes in the same order. The name is read anew at every
      node. When it lies in a record of the list, its own turn frees it, so the model stops at the node after that
      one, where the source would read freed memory: exactly when there is a node after it. */
  method RemoveNamed(list: List<Subscription>, p: NamePointer)
    returns (alive: bool, ghost visited: seq<Node<Subscription>>)
    requires list.Valid() && AllWellFormed(list.Values()) && Readable(p, list.nodes)
    modifies list.repr
    ensures list.Valid() && list.repr == old(list.repr) && list.free == old(list.free)
    ensures alive <==> Outlives(p, old(list.nodes))
    ensures if alive then visited == old(list.nodes)
            else visited < old(list.nodes) && visited != [] && visited[|visited| - 1] == p.owner
    ensures list.nodes == KeepNodes(visited, Pointee(p)) + old(list.nodes)[|visited|..]
    ensures list.freed == old(list.freed) + if list.free then Named(ValuesOf(visited), Pointee(p)) else []
    ensures list.Values() == Without(ValuesOf(visited), Pointee(p)) + ValuesOf(old(list.nodes)[|visited|..])
    ensures alive ==> list.nodes == KeepNodes(old(list.nodes), Pointee(p))
    ensures alive ==> list.Values() == Without(old(list.Values()), Pointee(p))
    ensures alive ==>
      list.freed == old(list.freed) + if list.free then Named(old(list.Values()), Pointee(p)) else []
  {
    hide Removing, AllWellFormed, WellFormed, List.Valid, KeepNodes, Named, Without, NameOf, Live, Spent,
      Outlives, Readable, Distinct, Pointee, ValuesOf;
    ghost var all, values, freed, name := list.nodes, list.Values(), list.freed, Pointee(p);
    ghost var i := 0;
    alive := true;
    PointeeFits(p, list);
    visited := [];
    var iter := Rewind(list);
    var node;
    node, iter := Next(list, iter, 0);
    RemovalStart(list, name, node, iter);
    while node != null
      invariant i <= |all| && Removing(list, all, name, freed, i, node, iter)
      invariant visited == all[..i]
      invariant if alive then Live(p, all, i) else Spent(p, all, i)
      invariant list.repr == old(list.repr) && list.free == old(list.free)
      decreases |all| - i
    {
      if !alive { break; }
      RemovalNode(list, all, name, freed, i, node, iter);
      visited := visited + [node];
      PointerTurn(p, all, i);
      alive := !(p.Inside? && node == p.owner);
      node, iter := RemovalTurn(list, Pointee(p), node, iter, all, freed, i);
      i := i + 1;
    }
    RemovalEnd(list, all, name, freed, i, node, iter);
    PointerEnd(p, all, i);
    RemovedAll(all, i, name);
    alive := alive || node == null;
  }

  /** The record that owns the string has not had its turn, or has just had it. */
  ghost predicate Live(p: NamePointer, all: seq<Node<Subscription>>, i: nat) {
    i <= |all| && (p.Inside? ==> p.owner !in all[..i])
  }

  ghost predicate Spent(p: NamePointer, all: seq<Node<Subscription>>, i: nat) {
    0 < i <= |all| && p.Inside? && p.owner == all[i - 1]
  }

  lemma PointerTurn(p: NamePointer, all: seq<Node<Subscription>>, i: nat)
    requires i < |all| && Live(p, all, i)
    ensures if p.Inside? && all[i] == p.owner then Spent(p, all, i + 1) else Live(p, all, i + 1)
  {
    assert all[..i + 1] == all[..i] + [all[i]];
  }

  lemma PointerEnd(p: NamePointer, all: seq<Node<Subscription>>, i: nat)
    requires Distinct(all) && Readable(p, all) && (Live(p, all, i) || Spent(p, all, i))
    ensures i == |all| ==> Outlives(p, all)
    ensures i < |all| && Spent(p, all, i) ==> !Outlives(p, all) && all[..i] != [] && all[..i][i - 1] == p.owner
  {
    if i == |all| { assert all[..i] == all; }
  }

  lemma RemovedAll(all: seq<Node<Subscription>>, i: nat, name: CString)
    requires i <= |all|
    ensures all[..i] <= all && (i < |all| ==> all[..i] < all)
    ensures i == |all| ==>
      && all[..i] == all && KeepNodes(all[..i], name) + all[i..] == KeepNodes(all, name)
      && Without(ValuesOf(all[..i]), name) + ValuesOf(all[i..]) == Without(ValuesOf(all), name)
  {
    hide KeepNodes, Without;
    if i == |all| { assert all[..i] == all && all[i..] == []; }
  }

  /** The lookup of an event's name: the first node, from the head, whose record has that name. */
  method FindNamed(list: List<Subscription>, name: bytes) returns (found: Node?<Subscription>)
    requires list.Valid() && AllWellFormed(list.Values()) && |name| == 64
    ensures Newest(list.Values(), CStr(name)) == if found == null then None else Some(found.value)
    ensures found != null ==> exists k: nat :: FirstNamed(list.nodes, CStr(name), k) && list.nodes[k] == found
  {
    hide List.Valid, Named, NameOf, WellFormed, MatchesEvent, CStr;
    ghost var values := list.Values();
    ghost var i := 0;
    assert values[0..] == values;
    var iter := Rewind(list);
    var node;
    node, iter := Next(list, iter, 0);
    while node != null
      invariant 0 <= i <= |values|
      invariant node == Nth(list.nodes, i) && iter.next == Nth(list.nodes, i + 1)
      invariant Named(values, CStr(name)) == Named(values[i..], CStr(name))
      invariant forall j :: 0 <= j < i ==> NameOf(values[j]) != CStr(name)
      decreases |values| - i
    {
      LookupStep(values, i, CStr(name));
      if MatchesEvent(node.value, name) {
        assert FirstNamed(list.nodes, CStr(name), i);
        return node;
      }
      i := i + 1;
      node, iter := Next(list, iter, i);
    }
    LookupEnd(values, CStr(name));
    return null;
  }

  /** The first node whose record has a name. */
  ghost predicate FirstNamed(nodes: seq<Node<Subscription>>, name: CString, k: nat) {
    && k < |nodes| && NameOf(nodes[k].value) == name
    && forall j :: 0 <= j < k ==> NameOf(nodes[j].value) != name
  }

  lemma LookupStep(values: seq<Subscription>, i: nat, name: CString)
    requires i < |values|
    ensures Named(values[i..], name)
         == (if NameOf(values[i]) == name then [values[i]] else []) + Named(values[i + 1..], name)
    ensures NameOf(values[i]) != name ==> Named(values[i..], name) == Named(values[i + 1..], name)
    ensures NameOf(values[i]) == name ==> Named(values[i..], name) != [] && Named(values[i..], name)[0] == values[i]
  {
    hide NameOf;
    assert values[i..][1..] == values[i + 1..];
  }

  lemma LookupEnd(values: seq<Subscription>, name: CString)
    ensures Named(values[|values|..], name) == []
  {
  }

  /** The record that an event of a name is delivered to. */
  function Newest(subs: seq<Subscription>, name: CString): Option<Subscription> {
    var named := Named(subs, name);
    if named == [] then None else Some(named[0])
  }

  /** The newest record of a name is the oldest record of all: no record before the last has the name. */
  predicate OldestOfAll(subs: seq<Subscription>, name: CString) {
    subs != [] && Named(subs[..|subs| - 1], name) == []
  }

  lemma {:induction false} NoneNamed(subs: seq<Subscription>, name: CString)
    ensures Named(subs, name) == [] <==> forall j :: 0 <= j < |subs| ==> NameOf(subs[j]) != name
  {
    hide NameOf;
    if subs != [] {
      NoneNamed(subs[1..], name);
      forall j | 0 <= j < |subs| && Named(subs, name) == [] ensures NameOf(subs[j]) != name {
        if j > 0 { assert subs[j] == subs[1..][j - 1]; }
      }
    }
  }

  /** The name that a callback is handed, which lies in the record its event was delivered to, outlives an
      unsubscription by it exactly when that record is the oldest on the list. */
  lemma HandedOutlives(list: List<Subscription>, name: CString, k: nat)
    requires FirstNamed(list.nodes, name, k)
    requires list.Valid()
    ensures var p := Inside(list.nodes[k]);
      && Readable(p, list.nodes) && Pointee(p) == name
      && (Outlives(p, list.nodes) <==> OldestOfAll(list.Values(), name))
  {
    hide NameOf, Named, List.Valid;
    ListDistinct(list);
    var values := list.Values();
    NoneNamed(values[..|values| - 1], name);
    if k < |values| - 1 { assert values[..|values| - 1][k] == values[k]; }
  }

  lemma ListDistinct(list: List<Subscription>)
    requires list.Valid()
    ensures Distinct(list.nodes)
  {
  }

  /** Two records of one name, and an unsubscription by the name inside the newer of them, as a callback would
      make it that passes on what it was handed: the loop comes upon a freed name, and the older record stays. */
  method OlderRecordStays(name: CString, older: Callback, newer: Callback)
    returns (list: List<Subscription>, alive: bool)
    requires |name| < 64
    ensures list.Valid() && !alive
    ensures list.Values() == [QueueRecord(name, older)] && list.freed == [QueueRecord(name, newer)]
  {
    hide WellFormed, List.Valid, List.Values, CStr, Pad, KeepNodes, Named, Without, Outlives, NameOf, QueueRecord,
      AllWellFormed, ValuesOf;
    var head;
    list, head := TwoRecords(QueueRecord(name, older), QueueRecord(name, newer));
    ghost var nodes := list.nodes;
    ghost var visited;
    HeadOutlives(nodes);
    alive, visited := RemoveNamed(list, Inside(head));
    HeadVisited(nodes, visited, name);
  }

  method TwoRecords(r: Subscription, q: Subscription) returns (list: List<Subscription>, head: Node<Subscription>)
    requires WellFormed(r) && WellFormed(q)
    ensures list.Valid() && fresh(list.repr) && list.free && list.freed == [] && AllWellFormed(list.Values())
    ensures |list.nodes| == 2 && list.nodes[0] != list.nodes[1] && head == list.nodes[0]
    ensures list.nodes[0].value == q && list.nodes[1].value == r
  {
    hide WellFormed, NameOf, CStr;
    list := NewRegistry();
    list.AddValue(r);
    list.AddValue(q);
    head := list.head;
    assert list.nodes == [list.nodes[0]] + list.nodes[1..];
  }

  lemma HeadOutlives(nodes: seq<Node<Subscription>>)
    requires |nodes| == 2 && nodes[0] != nodes[1]
    ensures !Outlives(Inside(nodes[0]), nodes)
  {
  }

  lemma HeadVisited(nodes: seq<Node<Subscription>>, visited: seq<Node<Subscription>>, name: CString)
    requires |nodes| == 2 && nodes[0] != nodes[1]
    requires visited < nodes && visited != [] && visited[|visited| - 1] == nodes[0]
    requires NameOf(nodes[0].value) == name
    ensures Without(ValuesOf(visited), name) + ValuesOf(nodes[|visited|..]) == [nodes[1].value]
    ensures Named(ValuesOf(visited), name) == [nodes[0].value]
  {
    hide NameOf;
    assert visited == [nodes[0]] && nodes[1..] == [nodes[1]];
  }
}
