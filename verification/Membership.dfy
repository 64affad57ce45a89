// svc/registry: the member list kept by the memberlist callbacks and the discovery of the
// nodes of a service.
module Membership {
  import opened Prelude

  datatype NodeState = Alive | Suspect | Dead | Left

  // A memberlist.Node. Nodes are compared by identity; their state and metadata change
  // under the registry's feet. `service` is what the metadata decodes to, None when it is
  // no valid JSON.
  class MemberNode {
    const name: string
    var state: NodeState
    var service: Option<string>

    constructor (name: string, state: NodeState, service: Option<string>)
      ensures this.name == name && this.state == state && this.service == service
    {
      this.name, this.state, this.service := name, state, service;
    }
  }

  // sliceutils.IndexOfAny
  method IndexOfAny(target: MemberNode, members: seq<MemberNode>) returns (index: int)
    ensures -1 <= index < |members|
    ensures index == -1 <==> target !in members
    ensures index >= 0 ==> members[index] == target && target !in members[..index]
  {
    index := 0;
    while index < |members|
      invariant 0 <= index <= |members|
      invariant target !in members[..index]
    {
      if members[index] == target {
        return;
      }
      index := index + 1;
    }
    index := -1;
  }

  predicate NoDuplicates(ms: seq<MemberNode>) {
    forall i, j :: 0 <= i < j < |ms| ==> ms[i] != ms[j]
  }

  // The list without the first occurrence of node n.
  function RemoveFirst(ms: seq<MemberNode>, n: MemberNode): seq<MemberNode> {
    if ms == [] then [] else if ms[0] == n then ms[1..] else [ms[0]] + RemoveFirst(ms[1..], n)
  }

  lemma {:induction false} RemoveFirstAt(ms: seq<MemberNode>, i: nat)
    requires i < |ms| && ms[i] !in ms[..i]
    ensures RemoveFirst(ms, ms[i]) == ms[..i] + ms[i + 1..]
  {
    if i > 0 {
      assert ms[0] in ms[..i];
      assert forall x :: x in ms[1..][..i - 1] ==> x in ms[..i];
      RemoveFirstAt(ms[1..], i - 1);
      assert ms[1..][..i - 1] == ms[1..i] && ms[1..][i..] == ms[i + 1..];
      assert ms[..i] == [ms[0]] + ms[1..i];
    }
  }

  lemma {:induction false} RemoveFirstAbsent(ms: seq<MemberNode>, n: MemberNode)
    requires n !in ms
    ensures RemoveFirst(ms, n) == ms
  {
    if ms != [] {
      RemoveFirstAbsent(ms[1..], n);
      assert ms == [ms[0]] + ms[1..];
    }
  }

  lemma {:induction false} RemoveFirstIs(ms: seq<MemberNode>, n: MemberNode)
    requires NoDuplicates(ms)
    ensures forall m :: m in RemoveFirst(ms, n) <==> m in ms && m != n
    ensures NoDuplicates(RemoveFirst(ms, n))
  {
    if ms != [] {
      RemoveFirstIs(ms[1..], n);
      assert ms[0] !in ms[1..];
      assert forall m :: m in ms <==> m == ms[0] || m in ms[1..];
      if ms[0] != n { assert ms[0] !in RemoveFirst(ms[1..], n); }
    }
  }

  // --- Discovery --------------------------------------------------------------------------

  function Serving(ms: seq<MemberNode>, svc: string): seq<MemberNode>
    reads ms
  {
    if ms == [] then []
    else if ms[0].state == Alive && ms[0].service == Some(svc) then [ms[0]] + Serving(ms[1..], svc)
    else Serving(ms[1..], svc)
  }

  // An alive member whose metadata does not decode makes the whole call fail.
  predicate Undecodable(ms: seq<MemberNode>)
    reads ms
  {
    exists i :: 0 <= i < |ms| && ms[i].state == Alive && ms[i].service.None?
  }

  class Registry {
    var members: seq<MemberNode>

    constructor ()
      ensures members == []
    {
      members := [];
    }

    method NotifyJoin(node: MemberNode)
      modifies this
      ensures members == if node.service.None? then old(members) else old(members) + [node]
    {
      if node.service.None? {
        return;
      }
      members := members + [node];
    }

    // Panics on an unknown node with valid metadata: its index is -1.
    method NotifyLeave(node: MemberNode) returns (panicked: bool)
      modifies this
      ensures panicked <==> node.service.Some? && node !in old(members)
      ensures members == if node.service.None? then old(members) else RemoveFirst(old(members), node)
    {
      if node.service.None? {
        return false;
      }
      var index := IndexOfAny(node, members);
      if index < 0 {
        RemoveFirstAbsent(members, node);
        return true;
      }
      RemoveFirstAt(members, index);
      members := members[..index] + members[index + 1..];
      panicked := false;
    }

    method NotifyUpdate(node: MemberNode) returns (panicked: bool)
      modifies this
      ensures panicked <==> node.service.Some? && node !in old(members)
      ensures members == old(members)
    {
      if node.service.None? {
        return false;
      }
      var index := IndexOfAny(node, members);
      if index < 0 {
        return true;
      }
      members := members[index := node];
      panicked := false;
    }

    // Discover, for a registry whose memberlist was created.
    method Discover(svc: string) returns (failed: bool, nodes: seq<MemberNode>)
      ensures failed <==> Undecodable(members)
      ensures !failed ==> nodes == Serving(members, svc)
    {
      failed, nodes := false, [];
      for n := 0 to |members|
        invariant forall i :: 0 <= i < n ==> !(members[i].state == Alive && members[i].service.None?)
        invariant nodes + Serving(members[n..], svc) == Serving(members, svc)
      {
        var member := members[n];
        assert members[n..][0] == member && members[n..][1..] == members[n + 1..];
        if member.state == Alive {
          if member.service.None? {
            failed := true;
            return;
          }
          if member.service.value == svc {
            nodes := nodes + [member];
          }
        }
      }
    }
  }

  lemma {:induction false} ServingIs(ms: seq<MemberNode>, svc: string)
    requires NoDuplicates(ms)
    ensures NoDuplicates(Serving(ms, svc))
    ensures forall m :: m in Serving(ms, svc) <==> m in ms && m.state == Alive && m.service == Some(svc)
  {
    if ms != [] { ServingIs(ms[1..], svc); }
  }

  // In member order.
  lemma {:induction false} ServingConcat(ms: seq<MemberNode>, ns: seq<MemberNode>, svc: string)
    ensures Serving(ms + ns, svc) == Serving(ms, svc) + Serving(ns, svc)
  {
    if ms == [] {
      assert ms + ns == ns;
    } else {
      assert (ms + ns)[1..] == ms[1..] + ns;
      ServingConcat(ms[1..], ns, svc);
    }
  }

  // --- Event sequences --------------------------------------------------------------------

  // The events that the callbacks act on: those that come with valid metadata.
  datatype Event = Join(node: MemberNode) | Leave(node: MemberNode) | Update(node: MemberNode)

  // The member list after such events.
  function MembersAfter(events: seq<Event>): seq<MemberNode> {
    if events == [] then []
    else
      var before := MembersAfter(events[..|events| - 1]);
      match events[|events| - 1]
      case Join(n) => before + [n]
      case Leave(n) => RemoveFirst(before, n)
      case Update(n) => before
  }

  // A node joined at position i and has not left since.
  predicate JoinedAt(events: seq<Event>, i: nat) {
    && i < |events| && events[i].Join?
    && forall k :: i < k < |events| ==> events[k] != Leave(events[i].node)
  }

  predicate Present(events: seq<Event>, n: MemberNode) {
    exists i :: 0 <= i < |events| && JoinedAt(events, i) && events[i].node == n
  }

  // A node joins only when absent, leaves and is updated only when present.
  predicate WellFormed(events: seq<Event>)
    decreases |events|
  {
    events == [] ||
    (var front, last := events[..|events| - 1], events[|events| - 1];
     WellFormed(front) && (if last.Join? then !Present(front, last.node) else Present(front, last.node)))
  }

  // The positions of the joins that still count, in order.
  function Joins(events: seq<Event>, i: nat): seq<MemberNode>
    requires i <= |events|
    decreases |events| - i
  {
    if i == |events| then []
    else if JoinedAt(events, i) then [events[i].node] + Joins(events, i + 1) else Joins(events, i + 1)
  }

  lemma {:induction false} JoinsAfterJoin(front: seq<Event>, n: MemberNode, i: nat)
    requires i <= |front|
    ensures Joins(front + [Join(n)], i) == Joins(front, i) + [n]
    decreases |front| - i
  {
    var events := front + [Join(n)];
    if i == |front| {
      assert JoinedAt(events, i);
      assert Joins(events, i + 1) == [];
    } else {
      JoinsAfterJoin(front, n, i + 1);
      assert JoinedAt(events, i) <==> JoinedAt(front, i) by {
        assert forall k :: i < k < |front| ==> events[k] == front[k];
      }
    }
  }

  lemma {:induction false} JoinsAfterLeave(front: seq<Event>, n: MemberNode, i: nat)
    requires i <= |front| && NoDuplicates(Joins(front, i))
    ensures Joins(front + [Leave(n)], i) == RemoveFirst(Joins(front, i), n)
    decreases |front| - i
  {
    var events := front + [Leave(n)];
    if i == |front| {
      assert !JoinedAt(events, i);
      assert Joins(events, i + 1) == [];
    } else {
      assert JoinedAt(front, i) ==> Joins(front, i)[1..] == Joins(front, i + 1);
      JoinsAfterLeave(front, n, i + 1);
      assert JoinedAt(events, i) <==> JoinedAt(front, i) && front[i].node != n by {
        assert events[|front|] == Leave(n);
        assert forall k :: i < k < |front| ==> events[k] == front[k];
      }
      if JoinedAt(front, i) && front[i].node == n {
        var rest := Joins(front, i + 1);
        assert forall k :: 0 <= k < |rest| ==> rest[k] == Joins(front, i)[k + 1];
        assert Joins(front, i)[0] == n;
        RemoveFirstAbsent(rest, n);
      }
    }
  }

  lemma {:induction false} JoinsAfterUpdate(front: seq<Event>, n: MemberNode, i: nat)
    requires i <= |front|
    ensures Joins(front + [Update(n)], i) == Joins(front, i)
    decreases |front| - i
  {
    var events := front + [Update(n)];
    if i == |front| {
      assert !JoinedAt(events, i);
      assert Joins(events, i + 1) == [];
    } else {
      JoinsAfterUpdate(front, n, i + 1);
      assert JoinedAt(events, i) <==> JoinedAt(front, i) by {
        assert forall k :: i < k < |front| ==> events[k] == front[k];
      }
    }
  }

  lemma {:induction false} InJoins(events: seq<Event>, i: nat, n: MemberNode)
    requires i <= |events|
    ensures n in Joins(events, i) <==> exists k :: i <= k < |events| && JoinedAt(events, k) && events[k].node == n
    decreases |events| - i
  {
    if i < |events| { InJoins(events, i + 1, n); }
  }

  // Over every well-formed event sequence the members are the joined and not left nodes
  // in join order, without duplicates, and the node of a leave or update is found.
  lemma {:induction false} MembersAreJoins(events: seq<Event>)
    requires WellFormed(events)
    ensures MembersAfter(events) == Joins(events, 0)
    ensures NoDuplicates(MembersAfter(events))
    ensures events != [] && !events[|events| - 1].Join? ==>
              events[|events| - 1].node in MembersAfter(events[..|events| - 1])
    decreases |events|
  {
    if events != [] {
      var front, last := events[..|events| - 1], events[|events| - 1];
      assert events == front + [last];
      MembersAreJoins(front);
      InJoins(front, 0, last.node);
      match last {
        case Join(n) => JoinsAfterJoin(front, n, 0);
        case Leave(n) => JoinsAfterLeave(front, n, 0); RemoveFirstIs(MembersAfter(front), n);
        case Update(n) => JoinsAfterUpdate(front, n, 0);
      }
    }
  }

  // --- Which event sequences panic ----------------------------------------------------------

  // No leave or update of a node that is not in the list.
  predicate NoPanic(events: seq<Event>)
    decreases |events|
  {
    events == [] ||
    (var front, last := events[..|events| - 1], events[|events| - 1];
     NoPanic(front) && (last.Join? || last.node in MembersAfter(front)))
  }

  // How often node n joined more than it left.
  function Balance(events: seq<Event>, n: MemberNode): int {
    if events == [] then 0
    else
      var last := events[|events| - 1];
      Balance(events[..|events| - 1], n) + if last == Join(n) then 1 else if last == Leave(n) then -1 else 0
  }

  predicate Covered(events: seq<Event>) {
    forall i :: 0 <= i < |events| && !events[i].Join? ==> Balance(events[..i], events[i].node) > 0
  }

  lemma {:induction false} RemoveFirstCount(ms: seq<MemberNode>, n: MemberNode, m: MemberNode)
    requires n in ms
    ensures multiset(RemoveFirst(ms, n))[m] == multiset(ms)[m] - if m == n then 1 else 0
  {
    assert ms == [ms[0]] + ms[1..];
    if ms[0] != n {
      RemoveFirstCount(ms[1..], n, m);
    }
  }

  lemma {:induction false} BalanceIs(events: seq<Event>, m: MemberNode)
    requires NoPanic(events)
    ensures multiset(MembersAfter(events))[m] == Balance(events, m)
    decreases |events|
  {
    if events != [] {
      var front, last := events[..|events| - 1], events[|events| - 1];
      BalanceIs(front, m);
      if last.Leave? { RemoveFirstCount(MembersAfter(front), last.node, m); }
    }
  }

  // The exact condition: no callback panics if and only if at every leave and update the
  // node has joined more often than it has left.
  lemma {:induction false} NoPanicIff(events: seq<Event>)
    ensures NoPanic(events) <==> Covered(events)
    decreases |events|
  {
    if events != [] {
      var front, last := events[..|events| - 1], events[|events| - 1];
      NoPanicIff(front);
      assert forall i :: 0 <= i < |front| ==> front[..i] == events[..i] && front[i] == events[i];
      if NoPanic(front) {
        BalanceIs(front, last.node);
        assert last.node in MembersAfter(front) <==> last.node in multiset(MembersAfter(front));
      }
    }
  }

  // --- The callbacks -------------------------------------------------------------------------

  // A call of the delegate; `meta` is what the node's metadata decodes to at that time.
  datatype Callback = Callback(event: Event, meta: Option<string>)

  function Effective(cs: seq<Callback>): seq<Event> {
    if cs == [] then []
    else
      var c := cs[|cs| - 1];
      Effective(cs[..|cs| - 1]) + if c.meta.Some? then [c.event] else []
  }

  lemma {:induction false} NoPanicBefore(cs: seq<Callback>, k: nat)
    requires k <= |cs| && NoPanic(Effective(cs))
    ensures NoPanic(Effective(cs[..k]))
    decreases |cs|
  {
    if k < |cs| {
      var front, c := cs[..|cs| - 1], cs[|cs| - 1];
      if c.meta.Some? {
      } else {
        assert Effective(front) + [] == Effective(front);
      }
      NoPanicBefore(front, k);
      assert front[..k] == cs[..k];
    } else {
      assert cs[..k] == cs;
    }
  }

  // One call, on a registry that holds `before`.
  method Deliver(r: Registry, c: Callback, ghost before: seq<Event>) returns (panicked: bool)
    requires r.members == MembersAfter(before) && NoPanic(before)
    modifies r, c.event.node
    ensures var after := before + if c.meta.Some? then [c.event] else [];
            && (panicked <==> !NoPanic(after))
            && (!panicked ==> r.members == MembersAfter(after))
  {
    ghost var after := before + [c.event];
    assert after[..|before|] == before && after[|before|] == c.event;
    assert before + [] == before;
    c.event.node.service := c.meta;
    panicked := false;
    match c.event {
      case Join(node) => r.NotifyJoin(node);
      case Leave(node) => panicked := r.NotifyLeave(node);
      case Update(node) => panicked := r.NotifyUpdate(node);
    }
  }

  // The callbacks run one after the other on a new registry, up to a panic.
  method Replay(cs: seq<Callback>) returns (r: Registry, panicked: bool)
    modifies set c | c in cs :: c.event.node
    ensures fresh(r)
    ensures panicked <==> !Covered(Effective(cs))
    ensures !panicked ==> r.members == MembersAfter(Effective(cs))
    ensures WellFormed(Effective(cs)) ==>
              !panicked && r.members == Joins(Effective(cs), 0) && NoDuplicates(r.members)
  {
    r := new Registry();
    panicked := false;
    NoPanicIff(Effective(cs));
    if WellFormed(Effective(cs)) {
      WellFormedNoPanic(Effective(cs));
      MembersAreJoins(Effective(cs));
    }
    for n := 0 to |cs|
      invariant fresh(r)
      invariant NoPanic(Effective(cs[..n])) && r.members == MembersAfter(Effective(cs[..n]))
    {
      assert cs[..n + 1][..n] == cs[..n];
      assert Effective(cs[..n + 1]) == Effective(cs[..n]) + if cs[n].meta.Some? then [cs[n].event] else [];
      assert cs[n] in cs;
      panicked := Deliver(r, cs[n], Effective(cs[..n]));
      if panicked {
        if NoPanic(Effective(cs)) { NoPanicBefore(cs, n + 1); }
        return;
      }
    }
    assert cs[..|cs|] == cs;
  }

  lemma {:induction false} WellFormedNoPanic(events: seq<Event>)
    requires WellFormed(events)
    ensures NoPanic(events)
    decreases |events|
  {
    if events != [] {
      MembersAreJoins(events);
      WellFormedNoPanic(events[..|events| - 1]);
    }
  }

  // A node that joined with invalid metadata and is updated with valid ones.
  lemma LateMetadataPanics(n: MemberNode, meta: string)
    ensures !Covered(Effective([Callback(Join(n), None), Callback(Update(n), Some(meta))]))
  {
    var cs := [Callback(Join(n), None), Callback(Update(n), Some(meta))];
    assert cs[..1] == [cs[0]] && [cs[0]][..0] == [];
    assert Effective([cs[0]]) == [];
    assert Effective(cs) == [Update(n)];
    assert Effective(cs)[..0] == [];
  }
}
