/** The threaded server's list of clients: a singly linked list with the newest client
    first, from which inactive clients are unlinked in place. */
module ClientList {

  datatype Status = Active | Inactive

  datatype Kind = Asker | Answerer

  class Client {
    const fd: nat
    const kind: Kind
    var status: Status
    var next: Client?

    constructor (fd: nat, kind: Kind, next: Client?)
      ensures this.fd == fd && this.kind == kind && this.next == next && status == Active
    {
      this.fd, this.kind, this.next, status := fd, kind, next, Active;
    }
  }

  /** The nodes from `head` on are exactly `nodes`. */
  ghost predicate Linked(head: Client?, nodes: seq<Client>)
    reads nodes`next
  {
    && head == NodeAt(nodes, 0)
    && (forall k | 0 <= k < |nodes| :: nodes[k].next == NodeAt(nodes, k + 1))
    && Distinct(nodes)
  }

  ghost predicate Distinct(nodes: seq<Client>) {
    forall j, k | 0 <= j < k < |nodes| :: nodes[j] != nodes[k]
  }

  ghost function NodeAt(nodes: seq<Client>, k: nat): Client? {
    if k < |nodes| then nodes[k] else null
  }

  /** The active ones, in the same order. */
  ghost function ActiveOnly(nodes: seq<Client>): (kept: seq<Client>)
    reads nodes`status
    ensures |kept| <= |nodes|
  {
    if nodes == [] then []
    else if nodes[0].status == Active then [nodes[0]] + ActiveOnly(nodes[1..])
    else ActiveOnly(nodes[1..])
  }

  /** Exactly those marked so. */
  lemma {:induction false} ActiveOnlyIs(nodes: seq<Client>)
    ensures forall c :: c in ActiveOnly(nodes) <==> c in nodes && c.status == Active
  {
    if nodes != [] {
      ActiveOnlyIs(nodes[1..]);
      assert forall c :: c in nodes <==> c == nodes[0] || c in nodes[1..];
    }
  }

  /** Whoever is in the first part of the list is in the first part of what stays. */
  lemma {:induction false} ActiveOnlyKeepsOrder(first: seq<Client>, second: seq<Client>)
    ensures ActiveOnly(first + second) == ActiveOnly(first) + ActiveOnly(second)
  {
    if first == [] {
      assert first + second == second;
    } else {
      assert (first + second)[1..] == first[1..] + second;
      ActiveOnlyKeepsOrder(first[1..], second);
    }
  }

  /** The same, by membership. */
  ghost function Kept(nodes: seq<Client>, active: set<Client>): (kept: seq<Client>)
    ensures |kept| <= |nodes|
  {
    if nodes == [] then []
    else if nodes[0] in active then [nodes[0]] + Kept(nodes[1..], active)
    else Kept(nodes[1..], active)
  }

  lemma {:induction false} KeptIsActiveOnly(nodes: seq<Client>, active: set<Client>)
    requires forall c | c in nodes :: c.status == Active <==> c in active
    ensures ActiveOnly(nodes) == Kept(nodes, active)
  {
    if nodes != [] {
      assert nodes[0] in nodes;
      KeptIsActiveOnly(nodes[1..], active);
    }
  }

  ghost predicate Among(nodes: seq<Client>, members: set<Client>) {
    forall k | 0 <= k < |nodes| :: nodes[k] in members
  }

  /** The nodes without the one at `i`. */
  ghost function Without(nodes: seq<Client>, i: nat): (r: seq<Client>)
    requires i < |nodes|
    ensures |r| == |nodes| - 1
    ensures forall k | 0 <= k < |r| :: r[k] == nodes[if k < i then k else k + 1]
  {
    nodes[..i] + nodes[i + 1..]
  }

  /** Along the list `i` nodes are kept so far. */
  ghost predicate Halfway(nodes: seq<Client>, i: nat, members: set<Client>, active: set<Client>, target: seq<Client>) {
    && i <= |nodes| && Among(nodes, members)
    && nodes[..i] + Kept(nodes[i..], active) == target
    && (i == 0 && nodes != [] ==> nodes[0] in active)
  }

  lemma StepKeeps(nodes: seq<Client>, i: nat, members: set<Client>, active: set<Client>, target: seq<Client>)
    requires Halfway(nodes, i, members, active, target) && i < |nodes| && nodes[i] in active
    ensures Halfway(nodes, i + 1, members, active, target)
  {
    assert nodes[i..][1..] == nodes[i + 1..];
    assert nodes[..i + 1] == nodes[..i] + [nodes[i]];
    assert nodes[..i] + ([nodes[i]] + Kept(nodes[i + 1..], active)) == nodes[..i + 1] + Kept(nodes[i + 1..], active);
  }

  lemma StepDrops(nodes: seq<Client>, i: nat, members: set<Client>, active: set<Client>, target: seq<Client>)
    requires Halfway(nodes, i, members, active, target) && i < |nodes| && nodes[i] !in active
    ensures i > 0 && Halfway(Without(nodes, i), i, members, active, target)
  {
    assert nodes[i..][1..] == nodes[i + 1..];
    assert Without(nodes, i)[..i] == nodes[..i] && Without(nodes, i)[i..] == nodes[i + 1..];
  }

  lemma AllTheWay(nodes: seq<Client>, i: nat, members: set<Client>, active: set<Client>, target: seq<Client>)
    requires Halfway(nodes, i, members, active, target) && i == |nodes|
    ensures nodes == target
  {
  }

  /** The links once the node before `i` leads on to what follows. */
  lemma StaysLinked(head: Client?, nodes: seq<Client>, i: nat)
    requires 0 < i < |nodes| && Distinct(nodes) && head == nodes[0]
    requires forall k | 0 <= k < |nodes| && k != i - 1 :: nodes[k].next == NodeAt(nodes, k + 1)
    requires nodes[i - 1].next == NodeAt(nodes, i + 1)
    ensures Linked(head, Without(nodes, i))
  {
  }

  /** `tail` is what is left of `nodes` without the first ones. */
  ghost predicate EndsWith(nodes: seq<Client>, tail: seq<Client>) {
    && |tail| <= |nodes|
    && forall k | 0 <= k < |tail| :: tail[k] == nodes[|nodes| - |tail| + k]
  }

  lemma WithoutFirst(before: seq<Client>, head: Client, nodes: seq<Client>)
    requires EndsWith(before, nodes) && Linked(head, nodes) && head.status == Inactive
    ensures nodes != [] && EndsWith(before, nodes[1..]) && Linked(head.next, nodes[1..])
    ensures ActiveOnly(nodes[1..]) == ActiveOnly(nodes)
  {
  }

  /** These are the active ones. */
  ghost predicate Marked(members: set<Client>, active: set<Client>)
    reads members`status
  {
    forall c | c in members :: c.status == Active <==> c in active
  }

  /** The list's variables. */
  class List {
    var head: Client?
    var actives: int
    ghost var nodes: seq<Client>

    ghost predicate Valid()
      reads this, nodes`next
    {
      Linked(head, nodes)
    }

    constructor ()
      ensures Valid() && nodes == [] && actives == 0
    {
      head, actives, nodes := null, 0, [];
    }

    /** Unlinks every inactive client. */
    method RemoveInactives()
      requires Valid()
      modifies this, nodes`next
      ensures Valid() && nodes == old(ActiveOnly(nodes))
      ensures actives == old(actives) - (|old(nodes)| - |nodes|)
    {
      if head == null {
        return;
      }
      RemoveFirstOnes();
      RemoveLaterOnes();
    }

    /** The loop at the head. */
    method RemoveFirstOnes()
      requires Valid()
      modifies this
      ensures Valid() && actives == old(actives) - (|old(nodes)| - |nodes|)
      ensures EndsWith(old(nodes), nodes)
      ensures ActiveOnly(nodes) == old(ActiveOnly(nodes))
      ensures nodes != [] ==> nodes[0].status == Active
    {
      ghost var before, kept := nodes, ActiveOnly(nodes);
      while head != null && head.status == Inactive
        invariant Valid() && actives == old(actives) - (|before| - |nodes|)
        invariant EndsWith(before, nodes) && ActiveOnly(nodes) == kept
        decreases |nodes|
      {
        WithoutFirst(before, head, nodes);
        head := head.next;
        nodes := nodes[1..];
        actives := actives - 1;
      }
    }

    /** The loop behind the head. */
    method RemoveLaterOnes()
      requires Valid() && (nodes != [] ==> nodes[0].status == Active)
      modifies this, nodes`next
      ensures Valid() && nodes == old(ActiveOnly(nodes))
      ensures actives == old(actives) - (|old(nodes)| - |nodes|)
    {
      ghost var members := set c | c in nodes;
      ghost var active := set c | c in nodes && c.status == Active;
      KeptIsActiveOnly(nodes, active);
      ghost var target, count := Kept(nodes, active), actives - |nodes|;
      RemoveFrom(members, active, target, count);
    }

    /** The same, by membership. */
    method RemoveFrom(ghost members: set<Client>, ghost active: set<Client>,
                      ghost target: seq<Client>, ghost count: int)
      requires Valid() && Among(nodes, members) && Marked(members, active)
      requires nodes != [] ==> nodes[0] in active
      requires target == Kept(nodes, active) && count == actives - |nodes|
      modifies this, members`next
      ensures Valid() && nodes == target && count == actives - |nodes|
    {
      var current, previous: Client? := head, null;
      ghost var i := 0;
      assert nodes[0..] == nodes;
      while current != null
        invariant Halfway(nodes, i, members, active, target)
        invariant Valid() && current == NodeAt(nodes, i)
        invariant i > 0 ==> previous == nodes[i - 1]
        invariant count == actives - |nodes|
        decreases |nodes| - i
      {
        if current.status == Inactive {
          StepDrops(nodes, i, members, active, target);
          current := Unlink(previous, current, i);
        } else {
          StepKeeps(nodes, i, members, active, target);
          previous := current;
          current := current.next;
          i := i + 1;
        }
      }
      AllTheWay(nodes, i, members, active, target);
    }

    /** Takes `current` out, the node after `previous`; returns the one after it. */
    method Unlink(previous: Client, current: Client, ghost i: nat) returns (following: Client?)
      requires Valid() && 0 < i < |nodes| && previous == nodes[i - 1] && current == nodes[i]
      modifies this, previous`next
      ensures Valid() && nodes == Without(old(nodes), i) && following == NodeAt(nodes, i)
      ensures actives == old(actives) - 1
    {
      assert forall k | 0 <= k < |nodes| && k != i - 1 :: nodes[k] != previous;
      previous.next := current.next;
      actives := actives - 1;
      following := previous.next;
      StaysLinked(head, nodes, i);
      nodes := Without(nodes, i);
    }
  }
}
