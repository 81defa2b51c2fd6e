/** To which connections a published message is pushed. */
module Pushes {
  import opened RoundRobin
  import opened TopicManager

  /** The connection of the first member with this id, or 0. */
  function ConnOf(members: seq<Member>, id: string): nat {
    if members == [] then 0
    else if members[0].subscriberId == id then members[0].connId
    else ConnOf(members[1..], id)
  }

  function ConnsOf(members: seq<Member>): seq<nat> {
    seq(|members|, i requires 0 <= i < |members| => members[i].connId)
  }

  /** The push to a group: none for a member without an id or a connection, although the turn moves on. */
  function PushTo(g: ConsumerGroup): seq<nat> {
    var id := Selected(RoundRobin.Group(g.members, g.roundRobinIndex));
    if id == "" || ConnOf(g.members, id) == 0 then [] else [ConnOf(g.members, id)]
  }

  function GroupPushes(groups: map<string, ConsumerGroup>, order: seq<string>): seq<nat>
    requires forall g :: g in order ==> g in groups
  {
    if order == [] then []
    else GroupPushes(groups, order[..|order| - 1]) + PushTo(groups[order[|order| - 1]])
  }

  ghost predicate EachOnce(order: seq<string>, names: set<string>) {
    && (forall g :: g in order <==> g in names)
    && forall i, j :: 0 <= i < j < |order| ==> order[i] != order[j]
  }

  /** Every broadcast subscriber gets the message, and one member of every group, in whatever order the groups come. */
  ghost predicate PushedToAll(targets: seq<nat>, subscribers: seq<Member>, groups: map<string, ConsumerGroup>) {
    exists order :: EachOnce(order, groups.Keys) && targets == ConnsOf(subscribers) + GroupPushes(groups, order)
  }

  lemma {:induction false} ConnOfUnique(members: seq<Member>, i: nat)
    requires i < |members| && UniqueIds(members)
    ensures ConnOf(members, members[i].subscriberId) == members[i].connId
  {
    if i > 0 {
      ConnOfUnique(members[1..], i - 1);
    }
  }

  /** All members have ids and connections. */
  ghost predicate Reachable(groups: map<string, ConsumerGroup>) {
    forall g :: g in groups ==>
      && groups[g].members != [] && UniqueIds(groups[g].members)
      && forall m :: m in groups[g].members ==> m.subscriberId != "" && m.connId != 0
  }

  /** The connection of the member whose turn it is. */
  function TurnOf(g: ConsumerGroup): nat
    requires g.members != []
  {
    g.members[g.roundRobinIndex % |g.members|].connId
  }

  /** The push of a group goes to the member whose turn it is, unless that member has no id or no connection. */
  lemma PushToTurn(g: ConsumerGroup)
    requires g.members != [] && UniqueIds(g.members)
    ensures var m := g.members[g.roundRobinIndex % |g.members|];
            PushTo(g) == if m.subscriberId == "" || m.connId == 0 then [] else [m.connId]
  {
    ConnOfUnique(g.members, g.roundRobinIndex % |g.members|);
  }

  lemma PushToReachable(groups: map<string, ConsumerGroup>, g: string)
    requires Reachable(groups) && g in groups
    ensures PushTo(groups[g]) == [TurnOf(groups[g])]
  {
    PushToTurn(groups[g]);
    assert groups[g].members[groups[g].roundRobinIndex % |groups[g].members|] in groups[g].members;
  }

  lemma {:induction false} OnePushPerGroup(groups: map<string, ConsumerGroup>, order: seq<string>)
    requires Reachable(groups) && forall g :: g in order ==> g in groups
    ensures |GroupPushes(groups, order)| == |order|
    ensures forall j :: 0 <= j < |order| ==> GroupPushes(groups, order)[j] == TurnOf(groups[order[j]])
  {
    hide Reachable, PushTo, TurnOf;
    if order != [] {
      var n := |order| - 1;
      OnePushPerGroup(groups, order[..n]);
      PushToReachable(groups, order[n]);
    }
  }

  lemma {:induction false} EachOnceCount(order: seq<string>, names: set<string>)
    requires EachOnce(order, names)
    ensures |order| == |names|
  {
    if order == [] {
      assert names == {};
    } else {
      var n := |order| - 1;
      assert order[n] in names && forall g :: g in order ==> g == order[n] || g in order[..n];
      EachOnceCount(order[..n], names - {order[n]});
    }
  }

  /**
   If all members have ids and connections, a message goes to every broadcast subscriber, to exactly one member of every
   group, the one whose turn it is, and to nobody else.
  */
  lemma EveryGroupGetsOne(targets: seq<nat>, subscribers: seq<Member>, groups: map<string, ConsumerGroup>)
    requires PushedToAll(targets, subscribers, groups) && Reachable(groups)
    ensures |targets| == |subscribers| + |groups|
    ensures forall i :: 0 <= i < |subscribers| ==> targets[i] == subscribers[i].connId
    ensures var rest := targets[|subscribers|..];
            && (forall g :: g in groups ==> TurnOf(groups[g]) in rest)
            && (forall conn :: conn in rest ==> exists g :: g in groups && conn == TurnOf(groups[g]))
  {
    hide Reachable, TurnOf, GroupPushes, ConnsOf;
    var order :| EachOnce(order, groups.Keys) && targets == ConnsOf(subscribers) + GroupPushes(groups, order);
    var conns := ConnsOf(subscribers);
    ConnsAt(subscribers);
    EachOnceCount(order, groups.Keys);
    OnePushPerGroup(groups, order);
    assert targets[|conns|..] == GroupPushes(groups, order);
    EachTurnOnce(groups, order);
  }

  lemma ConnsAt(members: seq<Member>)
    ensures |ConnsOf(members)| == |members| && forall i :: 0 <= i < |members| ==> ConnsOf(members)[i] == members[i].connId
  {
  }

  lemma EachTurnOnce(groups: map<string, ConsumerGroup>, order: seq<string>)
    requires EachOnce(order, groups.Keys) && Reachable(groups)
    ensures forall g :: g in groups ==> TurnOf(groups[g]) in GroupPushes(groups, order)
    ensures forall conn :: conn in GroupPushes(groups, order) ==> exists g :: g in groups && conn == TurnOf(groups[g])
  {
    OnePushPerGroup(groups, order);
    var pushes := GroupPushes(groups, order);
    forall g | g in groups
      ensures TurnOf(groups[g]) in pushes
    {
      var j :| 0 <= j < |order| && order[j] == g;
      assert pushes[j] == TurnOf(groups[g]);
    }
    forall conn | conn in pushes
      ensures exists g :: g in groups && conn == TurnOf(groups[g])
    {
      var j :| 0 <= j < |pushes| && pushes[j] == conn;
      assert order[j] in groups;
    }
  }

  method FindConn(members: seq<Member>, id: string) returns (conn: nat)
    ensures conn == ConnOf(members, id)
  {
    for j := 0 to |members|
      invariant ConnOf(members, id) == ConnOf(members[j..], id)
    {
      if members[j].subscriberId == id {
        return members[j].connId;
      }
      assert members[j..][1..] == members[j + 1..];
    }
    return 0;
  }

  method PushToSubscribers(manager: Manager, topic: string) returns (targets: seq<nat>)
    ensures targets == ConnsOf(manager.View(topic, "").members)
  {
    var subscribers := if topic in manager.subscribers then manager.subscribers[topic] else [];
    targets := [];
    for j := 0 to |subscribers|
      invariant targets == ConnsOf(subscribers[..j])
    {
      targets := targets + [subscribers[j].connId];
    }
    assert subscribers[..|subscribers|] == subscribers;
  }

  method PushToGroup(manager: Manager, topic: string, name: string, group: ConsumerGroup) returns (targets: seq<nat>)
    requires manager.Valid() && name != ""
    requires manager.View(topic, name) == RoundRobin.Group(group.members, group.roundRobinIndex)
    modifies manager`consumerGroups
    ensures manager.Valid()
    ensures targets == PushTo(group)
    ensures forall t, g :: manager.View(t, g) == Apply(old(manager.View(t, g)), Operation.Selecting(topic, name), t, g)
  {
    if group.members == [] {
      return [];
    }
    var id := manager.SelectNextMember(topic, name);
    if id == "" {
      return [];
    }
    var conn := FindConn(group.members, id);
    return if conn == 0 then [] else [conn];
  }

  /** The turns of these groups have moved on, and nothing else. */
  ghost predicate Turned(subscribers: map<string, seq<Member>>, groups: GroupMap, groups': GroupMap, topic: string, order: seq<string>) {
    forall t, g :: Lookup(subscribers, groups', t, g) == TurnedOn(Lookup(subscribers, groups, t, g), t == topic && g in order)
  }

  ghost function TurnedOn(g: Group, turned: bool): Group {
    if turned then Advance(g) else g
  }

  lemma NoTurns(subscribers: map<string, seq<Member>>, groups: GroupMap, topic: string)
    ensures Turned(subscribers, groups, groups, topic, [])
    ensures GroupPushes(GroupsOf(groups, topic), []) == []
  {
    hide Lookup;
  }

  lemma OneMoreTurn(
    subscribers: map<string, seq<Member>>, groups: GroupMap, groups': GroupMap, groups'': GroupMap, topic: string, order: seq<string>, name: string)
    requires Turned(subscribers, groups, groups', topic, order) && name !in order && name != ""
    requires forall t, g :: Lookup(subscribers, groups'', t, g) ==
                            Apply(Lookup(subscribers, groups', t, g), Operation.Selecting(topic, name), t, g)
    ensures Turned(subscribers, groups, groups'', topic, order + [name])
  {
    hide Lookup, Advance;
  }

  lemma NotTurnedYet(
    subscribers: map<string, seq<Member>>, groups: GroupMap, groups': GroupMap, topic: string, order: seq<string>, name: string)
    requires Turned(subscribers, groups, groups', topic, order) && name !in order && name in GroupsOf(groups, topic) && name != ""
    ensures var g := GroupsOf(groups, topic)[name];
            Lookup(subscribers, groups', topic, name) == RoundRobin.Group(g.members, g.roundRobinIndex)
  {
    assert Lookup(subscribers, groups, topic, name) == Lookup(subscribers, groups', topic, name) by {
      hide Lookup;
    }
  }

  lemma AllTurned(
    subscribers: map<string, seq<Member>>, groups: GroupMap, groups': GroupMap, topic: string, order: seq<string>, t: string, g: string)
    requires Turned(subscribers, groups, groups', topic, order) && EachOnce(order, GroupsOf(groups, topic).Keys)
    requires "" !in GroupsOf(groups, topic)
    ensures Lookup(subscribers, groups', t, g) == Apply(Lookup(subscribers, groups, t, g), Pushing(topic), t, g)
  {
    assert Lookup(subscribers, groups', t, g) == TurnedOn(Lookup(subscribers, groups, t, g), t == topic && g in order) by {
      hide Lookup, Advance;
    }
  }

  lemma OneMorePush(groups: map<string, ConsumerGroup>, order: seq<string>, name: string)
    requires (forall g :: g in order ==> g in groups) && name in groups
    ensures GroupPushes(groups, order + [name]) == GroupPushes(groups, order) + PushTo(groups[name])
  {
    assert (order + [name])[..|order|] == order;
  }

  lemma OneMoreName(order: seq<string>, names: set<string>, name: string)
    requires EachOnce(order, names) && name !in names
    ensures EachOnce(order + [name], names + {name})
  {
  }

  /** The groups as they are when the message is pushed; the turns are asked for one by one. */
  method PushToGroups(manager: Manager, topic: string) returns (targets: seq<nat>, ghost order: seq<string>)
    requires manager.Valid()
    modifies manager`consumerGroups
    ensures manager.Valid()
    ensures EachOnce(order, old(GroupsOf(manager.consumerGroups, topic)).Keys)
    ensures targets == GroupPushes(old(GroupsOf(manager.consumerGroups, topic)), order)
    ensures forall t, g :: manager.View(t, g) == Apply(old(manager.View(t, g)), Pushing(topic), t, g)
  {
    hide Lookup, Apply, Turned, PushTo, GroupPushes, Advance;
    ghost var subscribers, before := manager.subscribers, manager.consumerGroups;
    var groups := GroupsOf(manager.consumerGroups, topic);
    targets, order := [], [];
    NoTurns(subscribers, before, topic);
    var todo := groups.Keys;
    while todo != {}
      invariant manager.Valid() && todo <= groups.Keys && EachOnce(order, groups.Keys - todo)
      invariant targets == GroupPushes(groups, order)
      invariant Turned(subscribers, before, manager.consumerGroups, topic, order)
      decreases todo
    {
      var g :| g in todo;
      ghost var visited, middle := groups.Keys - todo, manager.consumerGroups;
      todo := todo - {g};
      NotTurnedYet(subscribers, before, middle, topic, order, g);
      var push := PushToGroup(manager, topic, g, groups[g]);
      forall t, n
        ensures Lookup(subscribers, manager.consumerGroups, t, n) ==
                Apply(Lookup(subscribers, middle, t, n), Operation.Selecting(topic, g), t, n)
      {
        assert manager.View(t, n) == Lookup(subscribers, manager.consumerGroups, t, n);
      }
      OneMoreTurn(subscribers, before, middle, manager.consumerGroups, topic, order, g);
      OneMoreName(order, visited, g);
      OneMorePush(groups, order, g);
      targets, order := targets + push, order + [g];
      assert groups.Keys - todo == visited + {g};
    }
    forall t, g
      ensures manager.View(t, g) == Apply(old(manager.View(t, g)), Pushing(topic), t, g)
    {
      AllTurned(subscribers, before, manager.consumerGroups, topic, order, t, g);
    }
  }

  /** Pushes a message out to everybody who is to get it. */
  method PushOut(manager: Manager, topic: string) returns (targets: seq<nat>)
    requires manager.Valid()
    modifies manager`consumerGroups
    ensures manager.Valid()
    ensures PushedToAll(targets, old(manager.View(topic, "").members), old(GroupsOf(manager.consumerGroups, topic)))
    ensures forall t, g :: manager.View(t, g) == Apply(old(manager.View(t, g)), Pushing(topic), t, g)
  {
    hide Lookup, Apply, EachOnce, PushTo;
    targets := PushToSubscribers(manager, topic);
    var others;
    ghost var order;
    others, order := PushToGroups(manager, topic);
    targets := targets + others;
  }
}
