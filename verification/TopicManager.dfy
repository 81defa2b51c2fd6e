/** The list of a topic's broadcast subscribers or of a consumer group's members, and the round-robin selection. */
module RoundRobin {
  import opened Bytes

  datatype Member = Member(subscriberId: string, connId: nat)

  /** A list of members and the place where the next selection starts. */
  datatype Group = Group(members: seq<Member>, index: nat)

  const NOBODY := Group([], 0)

  predicate HasId(members: seq<Member>, id: string) {
    exists m :: m in members && m.subscriberId == id
  }

  ghost predicate UniqueIds(members: seq<Member>) {
    forall i, j :: 0 <= i < j < |members| ==> members[i].subscriberId != members[j].subscriberId
  }

  /** Who is to be taken out: one subscriber, or all members of a connection. */
  datatype Leaver = ById(id: string) | ByConnection(connId: nat)

  predicate Leaves(m: Member, who: Leaver) {
    match who
    case ById(id) => m.subscriberId == id
    case ByConnection(connId) => m.connId == connId
  }

  function Without(members: seq<Member>, who: Leaver): seq<Member> {
    if members == [] then []
    else if Leaves(members[0], who) then Without(members[1..], who)
    else [members[0]] + Without(members[1..], who)
  }

  function Join(g: Group, m: Member): Group {
    if HasId(g.members, m.subscriberId) then g else g.(members := g.members + [m])
  }

  /** A group that nobody is left in is forgotten, together with its place. */
  function Leave(g: Group, who: Leaver): Group {
    if Without(g.members, who) == [] then NOBODY else g.(members := Without(g.members, who))
  }

  function Selected(g: Group): string {
    if g.members == [] then "" else g.members[g.index % |g.members|].subscriberId
  }

  function Advance(g: Group): Group {
    if g.members == [] then g else g.(index := (g.index + 1) % |g.members|)
  }

  lemma {:induction false} WithoutMembers(members: seq<Member>, who: Leaver)
    ensures forall m :: m in Without(members, who) <==> m in members && !Leaves(m, who)
    ensures |Without(members, who)| <= |members|
    ensures |Without(members, who)| == |members| <==> forall m :: m in members ==> !Leaves(m, who)
  {
    if members != [] {
      WithoutMembers(members[1..], who);
      assert members == [members[0]] + members[1..];
    }
  }

  /** Erasing goes member by member, so those who stay keep their order. */
  lemma {:induction false} WithoutConcat(a: seq<Member>, b: seq<Member>, who: Leaver)
    ensures Without(a + b, who) == Without(a, who) + Without(b, who)
  {
    hide Without, Leaves;
    if a == [] {
      assert a + b == b;
      WithoutNone(who);
    } else {
      var first := if Leaves(a[0], who) then [] else [a[0]];
      WithoutConcat(a[1..], b, who);
      assert (a + b)[1..] == a[1..] + b && (a + b)[0] == a[0];
      WithoutFirst(a, who);
      WithoutFirst(a + b, who);
      assert first + (Without(a[1..], who) + Without(b, who)) == first + Without(a[1..], who) + Without(b, who);
    }
  }

  lemma WithoutNone(who: Leaver)
    ensures Without([], who) == []
  {
  }

  lemma WithoutFirst(members: seq<Member>, who: Leaver)
    requires members != []
    ensures Without(members, who) == (if Leaves(members[0], who) then [] else [members[0]]) + Without(members[1..], who)
  {
    hide Leaves;
  }

  lemma {:induction false} WithoutNobody(members: seq<Member>, who: Leaver)
    requires forall m :: m in members ==> !Leaves(m, who)
    ensures Without(members, who) == members
  {
    if members != [] {
      WithoutNobody(members[1..], who);
    }
  }

  lemma {:induction false} WithoutUnique(members: seq<Member>, who: Leaver)
    requires UniqueIds(members)
    ensures UniqueIds(Without(members, who))
  {
    if members != [] {
      WithoutUnique(members[1..], who);
      WithoutMembers(members[1..], who);
      var rest := Without(members[1..], who);
      assert forall i :: 0 <= i < |rest| ==> rest[i] in rest;
    }
  }

  /** The members picked by `k` selections in a row. */
  function Picks(g: Group, k: nat): seq<string>
    decreases k
  {
    if k == 0 then [] else [Selected(g)] + Picks(Advance(g), k - 1)
  }

  function CountOf(picks: seq<string>, id: string): nat {
    if picks == [] then 0 else (if picks[0] == id then 1 else 0) + CountOf(picks[1..], id)
  }

  /** One place further, whether or not the index was within the list. */
  lemma NextPlace(index: nat, n: nat)
    requires n > 0
    ensures (index + 1) % n == if index % n + 1 == n then 0 else index % n + 1
  {
    var q, r := index / n, index % n;
    assert index == q * n + r;
    if r + 1 == n {
      assert (q + 1) * n == q * n + n;
      ModUnique(index + 1, n, q + 1, 0);
    } else {
      ModUnique(index + 1, n, q, r + 1);
    }
  }

  /** How many selections are made before member `i` gets its first. */
  function Wait(g: Group, i: nat): int
    requires i < |g.members|
  {
    var p := g.index % |g.members|;
    if i >= p then i - p else i - p + |g.members|
  }

  lemma WaitBounds(g: Group, i: nat)
    requires i < |g.members| && UniqueIds(g.members)
    ensures 0 <= Wait(g, i) < |g.members|
    ensures Wait(g, i) == 0 <==> Selected(g) == g.members[i].subscriberId
    ensures Wait(Advance(g), i) == if Wait(g, i) == 0 then |g.members| - 1 else Wait(g, i) - 1
  {
    NextPlace(g.index, |g.members|);
    var p' := (g.index + 1) % |g.members|;
    ModUnique(p', |g.members|, 0, p');
  }

  /** The subscriber `j` places behind the index, counting round the list. */
  function Ahead(g: Group, j: nat): string
    requires g.members != []
  {
    g.members[(g.index + j) % |g.members|].subscriberId
  }

  lemma AheadOfNext(g: Group, j: nat)
    requires g.members != []
    ensures Ahead(g, 0) == Selected(g)
    ensures Ahead(Advance(g), j) == Ahead(g, j + 1)
  {
    var n := |g.members|;
    ModOfMod(g.index + 1, j, n);
    assert Advance(g).members == g.members && (g.index + 1) % n + j == Advance(g).index + j;
  }

  /** Selections go round the list from the index on; the index may have been left behind by members leaving. */
  lemma {:induction false} PicksGoRound(g: Group, k: nat, j: nat)
    requires g.members != [] && j < k
    ensures |Picks(g, k)| == k && Picks(g, k)[j] == Ahead(g, j)
    decreases k
  {
    hide Ahead, Selected;
    PicksLength(g, k);
    if j == 0 {
      AheadOfNext(g, 0);
    } else {
      AheadOfNext(g, j - 1);
      PicksGoRound(Advance(g), k - 1, j - 1);
    }
  }

  lemma ModOfMod(a: nat, b: nat, n: nat)
    requires n > 0
    ensures (a % n + b) % n == (a + b) % n
  {
    var q, r := a / n, a % n;
    var q', r' := (r + b) / n, (r + b) % n;
    assert a == q * n + r && r + b == q' * n + r';
    assert (q + q') * n == q * n + q' * n;
    ModUnique(a + b, n, q + q', r');
  }

  lemma {:induction false} PicksLength(g: Group, k: nat)
    ensures |Picks(g, k)| == k
    decreases k
  {
    if k > 0 {
      PicksLength(Advance(g), k - 1);
    }
  }

  /** Exactly how often a member is picked. */
  lemma {:induction false} PicksOf(g: Group, k: nat, i: nat)
    requires i < |g.members| && UniqueIds(g.members)
    ensures CountOf(Picks(g, k), g.members[i].subscriberId) == (k + |g.members| - 1 - Wait(g, i)) / |g.members|
    decreases k
  {
    hide Wait, Selected;
    WaitBounds(g, i);
    ShareFirst(|g.members|, Wait(g, i));
    if k > 0 {
      PicksOf(Advance(g), k - 1, i);
      ShareStep(k, |g.members|);
      assert Picks(g, k)[1..] == Picks(Advance(g), k - 1);
    }
  }

  lemma ShareFirst(n: nat, wait: nat)
    requires wait < n
    ensures (n - 1 - wait) / n == 0
  {
  }

  lemma ShareStep(k: nat, n: nat)
    requires k > 0 && n > 0
    ensures (k + n - 1) / n == 1 + (k - 1) / n
  {
    var q, r := (k - 1) / n, (k - 1) % n;
    assert (q + 1) * n == q * n + n;
    ModUnique(k - 1 + n, n, q + 1, r);
  }

  /** `count` is the floor or the ceiling of `k / n`. */
  predicate Even(count: nat, k: nat, n: nat)
    requires n > 0
  {
    count == k / n || (count == k / n + 1 && k % n != 0)
  }

  /** However many selections there are with the same members, everyone is picked equally often, up to one. */
  lemma Fair(g: Group, k: nat, i: nat)
    requires i < |g.members| && UniqueIds(g.members)
    ensures Even(CountOf(Picks(g, k), g.members[i].subscriberId), k, |g.members|)
  {
    PicksOf(g, k, i);
    WaitBounds(g, i);
    Share(k, |g.members|, Wait(g, i));
  }

  lemma Share(k: nat, n: nat, wait: nat)
    requires wait < n
    ensures Even((k + n - 1 - wait) / n, k, n)
  {
    var q, r := k / n, k % n;
    assert k == q * n + r;
    var extra := r + n - 1 - wait;
    if extra < n {
      ModUnique(k + n - 1 - wait, n, q, extra);
    } else {
      assert (q + 1) * n == q * n + n;
      ModUnique(k + n - 1 - wait, n, q + 1, extra - n);
    }
  }

  /** What can happen to a group. */
  datatype Step = Joining(m: Member) | Leaving(who: Leaver) | Selecting | Vanishing

  function Take(g: Group, step: Step): Group {
    match step
    case Joining(m) => Join(g, m)
    case Leaving(who) => Leave(g, who)
    case Selecting => Advance(g)
    case Vanishing => NOBODY
  }

  function After(history: seq<Step>): Group {
    if history == [] then NOBODY else Take(After(history[..|history| - 1]), history[|history| - 1])
  }

  lemma {:induction false} AfterUnique(history: seq<Step>)
    ensures UniqueIds(After(history).members)
  {
    if history != [] {
      AfterUnique(history[..|history| - 1]);
      var last := history[|history| - 1];
      if last.Leaving? {
        WithoutUnique(After(history[..|history| - 1]).members, last.who);
      }
    }
  }

  /** A step that leaves the members as they are and is no selection leaves the index, too. */
  lemma SameMembersSameGroup(g: Group, step: Step)
    requires g.members != [] && !step.Selecting? && Take(g, step).members == g.members
    ensures Take(g, step) == g
  {
  }

  /** Whatever members joined, left or were disconnected before, the next `k` selections treat all members alike. */
  lemma FairAfterAnyHistory(history: seq<Step>, k: nat, i: nat)
    requires i < |After(history).members|
    ensures var g := After(history);
            Even(CountOf(Picks(g, k), g.members[i].subscriberId), k, |g.members|)
  {
    AfterUnique(history);
    Fair(After(history), k, i);
  }
}

/** Topics, broadcast subscriptions and consumer groups. */
module TopicManager {
  import opened RoundRobin
  import opened Wrappers

  datatype TopicInfo = TopicInfo(name: string, createTime: nat, messageCount: nat)

  datatype ConsumerGroup = ConsumerGroup(groupId: string, topicName: string, members: seq<Member>, roundRobinIndex: nat)

  type GroupMap = map<string, map<string, ConsumerGroup>>

  function GroupsOf(groups: GroupMap, topic: string): map<string, ConsumerGroup> {
    if topic in groups then groups[topic] else map[]
  }

  /** The members of a group of a topic; the empty group id stands for the broadcast subscribers. */
  function Lookup(subscribers: map<string, seq<Member>>, groups: GroupMap, topic: string, group: string): Group {
    if group == "" then
      if topic in subscribers then RoundRobin.Group(subscribers[topic], 0) else NOBODY
    else if group in GroupsOf(groups, topic) then
      var g := groups[topic][group];
      RoundRobin.Group(g.members, g.roundRobinIndex)
    else NOBODY
  }

  ghost predicate StoredGroup(topic: string, groupId: string, g: ConsumerGroup) {
    g.groupId == groupId != "" && g.topicName == topic && g.members != [] && UniqueIds(g.members)
  }

  ghost predicate Registered(topics: map<string, TopicInfo>, subscribers: map<string, seq<Member>>, groups: GroupMap) {
    && (forall t :: t in subscribers ==> t in topics && UniqueIds(subscribers[t]))
    && (forall t :: t in groups ==> t in topics)
    && (forall t, g :: t in groups && g in groups[t] ==> StoredGroup(t, g, groups[t][g]))
  }

  /** What a client or a closed connection can do; pushing a message out asks every group of its topic for a member. */
  datatype Operation =
    | Subscribing(topic: string, m: Member, group: string)
    | Unsubscribing(topic: string, id: string, group: string)
    | Selecting(topic: string, group: string)
    | Pushing(topic: string)
    | Disconnecting(connId: nat)
    | Unregistering(topic: string)

  /** What an operation is for the group `g` of topic `t`, if it concerns it; broadcast subscribers are not selected. */
  function StepFor(op: Operation, t: string, g: string): Option<Step> {
    match op
    case Subscribing(topic, m, group) => if t == topic && g == group then Some(Joining(m)) else None
    case Unsubscribing(topic, id, group) => if t == topic && g == group then Some(Leaving(ById(id))) else None
    case Selecting(topic, group) => if t == topic && g == group != "" then Some(Step.Selecting) else None
    case Pushing(topic) => if t == topic && g != "" then Some(Step.Selecting) else None
    case Disconnecting(connId) => Some(Leaving(ByConnection(connId)))
    case Unregistering(topic) => if t == topic then Some(Vanishing) else None
  }

  function Apply(before: Group, op: Operation, t: string, g: string): Group {
    var step := StepFor(op, t, g);
    if step.None? then before else Take(before, step.value)
  }

  ghost predicate HasNoId(members: seq<Member>, id: string) {
    forall m :: m in members ==> m.subscriberId != id
  }

  /** What a subscription does: it adds the subscriber behind all others unless its id is there. */
  lemma SubscribingMeans(before: Group, topic: string, m: Member, group: string, t: string, g: string)
    ensures Apply(before, Subscribing(topic, m, group), t, g) ==
            if t == topic && g == group && HasNoId(before.members, m.subscriberId) then RoundRobin.Group(before.members + [m], before.index)
            else before
  {
  }

  /** What leaving does: those who do not leave stay, and so does the place, unless nobody is left. */
  lemma LeavingMeans(before: Group, who: Leaver)
    ensures var after := Leave(before, who);
            && (forall m :: m in after.members <==>
                  m in before.members && if who.ById? then m.subscriberId != who.id else m.connId != who.connId)
            && (after.members != [] ==> after.index == before.index)
            && (after.members == [] ==> after == NOBODY)
  {
    WithoutMembers(before.members, who);
  }

  /** Erasing an id shortens the list exactly if somebody has it, and leaves it as it is otherwise. */
  lemma RemoveFrom(members: seq<Member>, id: string)
    ensures HasId(members, id) <==> |Without(members, ById(id))| != |members|
    ensures !HasId(members, id) ==> Without(members, ById(id)) == members
    ensures members == [] ==> Without(members, ById(id)) == []
    ensures UniqueIds(members) ==> UniqueIds(Without(members, ById(id)))
  {
    WithoutMembers(members, ById(id));
    if UniqueIds(members) {
      WithoutUnique(members, ById(id));
    }
    if !HasId(members, id) {
      WithoutNobody(members, ById(id));
    }
  }

  /** What is left is exactly what does not belong to the connection. */
  ghost predicate OnlyOthers(before: seq<Member>, after: seq<Member>, connId: nat) {
    forall m :: m in after <==> m in before && m.connId != connId
  }

  class Manager {
    var topics: map<string, TopicInfo>
    var subscribers: map<string, seq<Member>>
    var consumerGroups: GroupMap

    /** Ids are unique in every list, no empty group is stored, and every topic with subscribers is registered. */
    ghost predicate Valid()
      reads this
    {
      Registered(topics, subscribers, consumerGroups)
    }

    function View(topic: string, group: string): Group
      reads this
    {
      Lookup(subscribers, consumerGroups, topic, group)
    }

    constructor ()
      ensures Valid() && topics == map[] && forall t, g :: View(t, g) == NOBODY
    {
      topics, subscribers, consumerGroups := map[], map[], map[];
    }

    /** A registered topic stays as it is. */
    method RegisterTopic(topic: TopicInfo) returns (ok: bool)
      requires Valid()
      modifies this`topics
      ensures Valid()
      ensures ok <==> topic.name !in old(topics)
      ensures topics == if ok then old(topics)[topic.name := topic] else old(topics)
    {
      if topic.name in topics {
        return false;
      }
      topics := topics[topic.name := topic];
      return true;
    }

    /** With the topic go all its subscriptions. */
    method UnregisterTopic(topic: string) returns (ok: bool)
      requires Valid()
      modifies this
      ensures Valid() && ok && topics == old(topics) - {topic}
      ensures forall t, g :: View(t, g) == if t == topic then NOBODY else old(View(t, g))
      ensures forall t, g :: View(t, g) == Apply(old(View(t, g)), Unregistering(topic), t, g)
    {
      topics := topics - {topic};
      subscribers := subscribers - {topic};
      consumerGroups := consumerGroups - {topic};
      return true;
    }

    /** Adds the subscriber at the end of the list unless its id is there; an unknown topic is registered. */
    method Subscribe(topic: string, subscriber: Member, group: string) returns (ok: bool)
      requires Valid()
      modifies this
      ensures Valid()
      ensures topics == if topic in old(topics) then old(topics) else old(topics)[topic := TopicInfo(topic, 0, 0)]
      ensures ok <==> HasNoId(old(View(topic, group)).members, subscriber.subscriberId)
      ensures View(topic, group).members == old(View(topic, group)).members + if ok then [subscriber] else []
      ensures View(topic, group).index == old(View(topic, group)).index
      ensures forall t, g :: t != topic || g != group ==> View(t, g) == old(View(t, g))
      ensures forall t, g :: View(t, g) == Apply(old(View(t, g)), Subscribing(topic, subscriber, group), t, g)
    {
      hide Apply, Lookup, Registered;
      if topic !in topics {
        AddTopic(topic);
      }
      if group == "" {
        ok := AddSubscriber(topic, subscriber);
      } else {
        ok := AddMember(topic, subscriber, group);
      }
    }

    /** An unknown topic is registered for its first subscriber. */
    method AddTopic(topic: string)
      requires Valid() && topic !in topics
      modifies this`topics
      ensures Valid() && topics == old(topics)[topic := TopicInfo(topic, 0, 0)]
    {
      topics := topics[topic := TopicInfo(topic, 0, 0)];
    }

    method AddSubscriber(topic: string, subscriber: Member) returns (ok: bool)
      requires Valid() && topic in topics
      modifies this`subscribers
      ensures Valid()
      ensures ok <==> HasNoId(old(View(topic, "")).members, subscriber.subscriberId)
      ensures View(topic, "") == RoundRobin.Group(old(View(topic, "")).members + if ok then [subscriber] else [], old(View(topic, "")).index)
      ensures forall t, g :: t != topic || g != "" ==> View(t, g) == old(View(t, g))
      ensures forall t, g :: View(t, g) == Apply(old(View(t, g)), Subscribing(topic, subscriber, ""), t, g)
    {
      var subs := if topic in subscribers then subscribers[topic] else [];
      subscribers := subscribers[topic := subs];
      if HasId(subs, subscriber.subscriberId) {
        return false;
      }
      subscribers := subscribers[topic := subs + [subscriber]];
      return true;
    }

    method AddMember(topic: string, subscriber: Member, group: string) returns (ok: bool)
      requires Valid() && topic in topics && group != ""
      modifies this`consumerGroups
      ensures Valid()
      ensures ok <==> HasNoId(old(View(topic, group)).members, subscriber.subscriberId)
      ensures View(topic, group) == RoundRobin.Group(old(View(topic, group)).members + if ok then [subscriber] else [], old(View(topic, group)).index)
      ensures forall t, g :: t != topic || g != group ==> View(t, g) == old(View(t, g))
      ensures forall t, g :: View(t, g) == Apply(old(View(t, g)), Subscribing(topic, subscriber, group), t, g)
    {
      var groups := GroupsOf(consumerGroups, topic);
      if group !in groups {
        groups := groups[group := ConsumerGroup(group, topic, [subscriber], 0)];
        assert [] + [subscriber] == [subscriber];
      } else {
        var g := groups[group];
        if HasId(g.members, subscriber.subscriberId) {
          return false;
        }
        groups := groups[group := g.(members := g.members + [subscriber])];
      }
      consumerGroups := consumerGroups[topic := groups];
      return true;
    }

    /** Takes the subscriber off the list; a group that becomes empty is deleted. */
    method Unsubscribe(topic: string, id: string, group: string) returns (ok: bool)
      requires Valid()
      modifies this`subscribers, this`consumerGroups
      ensures Valid()
      ensures ok <==> !HasNoId(old(View(topic, group)).members, id)
      ensures forall m :: m in View(topic, group).members <==> m in old(View(topic, group)).members && m.subscriberId != id
      ensures View(topic, group).index == (if View(topic, group).members == [] then 0 else old(View(topic, group)).index)
      ensures forall t, g :: t != topic || g != group ==> View(t, g) == old(View(t, g))
      ensures forall t, g :: View(t, g) == Apply(old(View(t, g)), Unsubscribing(topic, id, group), t, g)
    {
      hide Lookup, Registered, Leave;
      LeavingMeans(View(topic, group), ById(id));
      if group == "" {
        ok := RemoveSubscriber(topic, id);
      } else {
        ok := RemoveMember(topic, id, group);
      }
    }

    method RemoveSubscriber(topic: string, id: string) returns (ok: bool)
      requires Valid()
      modifies this`subscribers
      ensures Valid()
      ensures ok <==> HasId(old(View(topic, "")).members, id)
      ensures forall t, g :: View(t, g) == Apply(old(View(t, g)), Unsubscribing(topic, id, ""), t, g)
    {
      hide Without;
      RemoveFrom(View(topic, "").members, id);
      if topic !in subscribers {
        return false;
      }
      var subs := Without(subscribers[topic], ById(id));
      if |subs| == |subscribers[topic]| {
        return false;
      }
      subscribers := subscribers[topic := subs];
      return true;
    }

    method RemoveMember(topic: string, id: string, group: string) returns (ok: bool)
      requires Valid() && group != ""
      modifies this`consumerGroups
      ensures Valid()
      ensures ok <==> HasId(old(View(topic, group)).members, id)
      ensures forall t, g :: View(t, g) == Apply(old(View(t, g)), Unsubscribing(topic, id, group), t, g)
    {
      hide Without;
      RemoveFrom(View(topic, group).members, id);
      if topic !in consumerGroups || group !in consumerGroups[topic] {
        return false;
      }
      var g := consumerGroups[topic][group];
      var members := Without(g.members, ById(id));
      if |members| == |g.members| {
        return false;
      }
      if members == [] {
        consumerGroups := consumerGroups[topic := consumerGroups[topic] - {group}];
      } else {
        consumerGroups := consumerGroups[topic := consumerGroups[topic][group := g.(members := members)]];
      }
      return true;
    }

    /** The member whose turn it is, or the empty string when there is no such group; the next one is due after that. */
    method SelectNextMember(topic: string, group: string) returns (id: string)
      requires Valid()
      modifies this`consumerGroups
      ensures Valid()
      ensures var before := old(View(topic, group));
              if group == "" || before.members == [] then id == "" && View(topic, group) == before
              else
                && id == before.members[before.index % |before.members|].subscriberId
                && View(topic, group) == RoundRobin.Group(before.members, (before.index + 1) % |before.members|)
      ensures forall t, g :: t != topic || g != group ==> View(t, g) == old(View(t, g))
      ensures group != "" ==> id == Selected(old(View(topic, group)))
      ensures forall t, g :: View(t, g) == Apply(old(View(t, g)), Operation.Selecting(topic, group), t, g)
    {
      if topic !in consumerGroups {
        return "";
      }
      if group !in consumerGroups[topic] || consumerGroups[topic][group].members == [] {
        return "";
      }
      var g := consumerGroups[topic][group];
      var n := |g.members|;
      id := g.members[g.roundRobinIndex % n].subscriberId;
      consumerGroups := consumerGroups[topic := consumerGroups[topic][group := g.(roundRobinIndex := (g.roundRobinIndex + 1) % n)]];
    }

    /** Takes everything that a closed connection had subscribed off the lists, and drops what becomes empty. */
    method UnsubscribeByConnId(connId: nat) returns (removedAny: bool)
      requires Valid()
      modifies this`subscribers, this`consumerGroups
      ensures Valid()
      ensures removedAny <==> exists t, g :: Touches(old(View(t, g)).members, connId)
      ensures forall t, g :: OnlyOthers(old(View(t, g)).members, View(t, g).members, connId)
      ensures forall t, g :: View(t, g) == Apply(old(View(t, g)), Disconnecting(connId), t, g)
    {
      hide CleanedLists, CleanedTopics, Lookup, Registered, OnlyOthers, Leave, Touches;
      var anySubscriber, anyMember;
      subscribers, anySubscriber := CleanLists(subscribers, connId);
      consumerGroups, anyMember := CleanTopics(consumerGroups, connId);
      removedAny := anySubscriber || anyMember;
      CleanKeepsRegistered(topics, old(subscribers), old(consumerGroups), subscribers, consumerGroups, connId);
      forall t, g
        ensures View(t, g) == Leave(old(View(t, g)), ByConnection(connId))
        ensures OnlyOthers(old(View(t, g)).members, View(t, g).members, connId)
      {
        CleanLookup(old(subscribers), old(consumerGroups), subscribers, consumerGroups, t, g, connId);
      }
      TouchedSomewhere(topics, old(subscribers), old(consumerGroups), connId);
      assert forall t, g :: old(View(t, g)) == Lookup(old(subscribers), old(consumerGroups), t, g);
      if removedAny {
        ghost var t, g :| Touches(Lookup(old(subscribers), old(consumerGroups), t, g).members, connId);
        assert Touches(old(View(t, g)).members, connId);
      }
    }
  }

  /** A member of the list belongs to the connection. */
  ghost predicate Touches(members: seq<Member>, connId: nat) {
    exists m :: m in members && m.connId == connId
  }

  lemma CleanList(members: seq<Member>, connId: nat)
    ensures UniqueIds(members) ==> UniqueIds(Without(members, ByConnection(connId)))
    ensures |Without(members, ByConnection(connId))| < |members| <==> Touches(members, connId)
  {
    WithoutMembers(members, ByConnection(connId));
    if UniqueIds(members) {
      WithoutUnique(members, ByConnection(connId));
    }
  }

  /** The list without the connection's members, or none at all if that is empty. */
  ghost predicate CleanEntry(members: seq<Member>, present: bool, left: seq<Member>, connId: nat) {
    var rest := Without(members, ByConnection(connId));
    (present <==> rest != []) && (present ==> left == rest)
  }

  ghost predicate CleanedLists(lists: map<string, seq<Member>>, r: map<string, seq<Member>>, todo: set<string>, connId: nat) {
    && todo <= r.Keys <= lists.Keys
    && (forall t :: t in lists && t !in todo ==> CleanEntry(lists[t], t in r, if t in r then r[t] else [], connId))
    && (forall t :: t in todo ==> r[t] == lists[t])
  }

  method CleanLists(lists: map<string, seq<Member>>, connId: nat) returns (r: map<string, seq<Member>>, removedAny: bool)
    ensures CleanedLists(lists, r, {}, connId)
    ensures removedAny <==> exists t :: t in lists && Touches(lists[t], connId)
  {
    r, removedAny := lists, false;
    var todo := lists.Keys;
    while todo != {}
      invariant CleanedLists(lists, r, todo, connId)
      invariant removedAny <==> exists t :: t in lists && t !in todo && Touches(lists[t], connId)
      decreases todo
    {
      var t :| t in todo;
      todo := todo - {t};
      CleanList(r[t], connId);
      var left := Without(r[t], ByConnection(connId));
      if |left| < |r[t]| {
        removedAny := true;
      }
      r := if left == [] then r - {t} else r[t := left];
    }
  }

  ghost predicate CleanedGroups(groups: map<string, ConsumerGroup>, r: map<string, ConsumerGroup>, todo: set<string>, connId: nat) {
    && todo <= r.Keys <= groups.Keys
    && (forall g :: g in groups && g !in todo ==>
          CleanEntry(groups[g].members, g in r, if g in r then r[g].members else [], connId))
    && (forall g :: g in r ==> r[g] == groups[g].(members := r[g].members))
    && (forall g :: g in todo ==> r[g] == groups[g])
  }

  method CleanGroups(groups: map<string, ConsumerGroup>, connId: nat)
    returns (r: map<string, ConsumerGroup>, removedAny: bool)
    ensures CleanedGroups(groups, r, {}, connId)
    ensures removedAny <==> exists g :: g in groups && Touches(groups[g].members, connId)
  {
    r, removedAny := groups, false;
    var todo := groups.Keys;
    while todo != {}
      invariant CleanedGroups(groups, r, todo, connId)
      invariant removedAny <==> exists g :: g in groups && g !in todo && Touches(groups[g].members, connId)
      decreases todo
    {
      var g :| g in todo;
      todo := todo - {g};
      CleanList(r[g].members, connId);
      var left := Without(r[g].members, ByConnection(connId));
      if |left| < |r[g].members| {
        removedAny := true;
      }
      r := if left == [] then r - {g} else r[g := r[g].(members := left)];
    }
  }

  ghost predicate CleanedTopics(topics: GroupMap, r: GroupMap, todo: set<string>, connId: nat) {
    && todo <= r.Keys <= topics.Keys
    && (forall t :: t in topics && t !in todo ==> CleanedGroups(topics[t], GroupsOf(r, t), {}, connId))
    && (forall t :: t in todo ==> r[t] == topics[t])
  }

  method CleanTopics(topics: GroupMap, connId: nat) returns (r: GroupMap, removedAny: bool)
    ensures CleanedTopics(topics, r, {}, connId)
    ensures removedAny <==> exists t, g :: t in topics && g in topics[t] && Touches(topics[t][g].members, connId)
  {
    hide CleanedGroups;
    r, removedAny := topics, false;
    var todo := topics.Keys;
    while todo != {}
      invariant CleanedTopics(topics, r, todo, connId)
      invariant removedAny <==> exists t, g :: t in topics && t !in todo && g in topics[t] && Touches(topics[t][g].members, connId)
      decreases todo
    {
      var t :| t in todo;
      todo := todo - {t};
      var groups, any := CleanGroups(r[t], connId);
      if any {
        removedAny := true;
      }
      r := if groups == map[] then r - {t} else r[t := groups];
    }
  }

  lemma CleanLookup(
    subscribers: map<string, seq<Member>>, groups: GroupMap, subscribers': map<string, seq<Member>>, groups': GroupMap,
    t: string, g: string, connId: nat)
    requires CleanedLists(subscribers, subscribers', {}, connId) && CleanedTopics(groups, groups', {}, connId)
    ensures Lookup(subscribers', groups', t, g) == Leave(Lookup(subscribers, groups, t, g), ByConnection(connId))
    ensures OnlyOthers(Lookup(subscribers, groups, t, g).members, Lookup(subscribers', groups', t, g).members, connId)
  {
    LeavingMeans(Lookup(subscribers, groups, t, g), ByConnection(connId));
  }

  lemma CleanKeepsRegistered(
    topics: map<string, TopicInfo>,
    subscribers: map<string, seq<Member>>, groups: GroupMap, subscribers': map<string, seq<Member>>, groups': GroupMap,
    connId: nat)
    requires CleanedLists(subscribers, subscribers', {}, connId) && CleanedTopics(groups, groups', {}, connId)
    requires Registered(topics, subscribers, groups)
    ensures Registered(topics, subscribers', groups')
  {
    forall t | t in subscribers'
      ensures UniqueIds(subscribers'[t])
    {
      CleanList(subscribers[t], connId);
    }
    forall t, g | t in groups' && g in groups'[t]
      ensures StoredGroup(t, g, groups'[t][g])
    {
      assert g in groups[t] && StoredGroup(t, g, groups[t][g]);
      CleanList(groups[t][g].members, connId);
    }
  }

  lemma TouchedSomewhere(topics: map<string, TopicInfo>, subscribers: map<string, seq<Member>>, groups: GroupMap, connId: nat)
    requires Registered(topics, subscribers, groups)
    ensures (exists t, g :: Touches(Lookup(subscribers, groups, t, g).members, connId))
      <==> (exists t :: t in subscribers && Touches(subscribers[t], connId))
           || exists t, g :: t in groups && g in groups[t] && Touches(groups[t][g].members, connId)
  {
    assert forall t :: t in groups ==> "" !in groups[t];
    if t :| t in subscribers && Touches(subscribers[t], connId) {
      assert Touches(Lookup(subscribers, groups, t, "").members, connId);
    }
    if t, g :| t in groups && g in groups[t] && Touches(groups[t][g].members, connId) {
      assert Touches(Lookup(subscribers, groups, t, g).members, connId);
    }
    if t, g :| Touches(Lookup(subscribers, groups, t, g).members, connId) {
      assert g == "" ==> t in subscribers && Touches(subscribers[t], connId);
      assert g != "" ==> t in groups && g in groups[t] && Touches(groups[t][g].members, connId);
    }
  }
}

/** Runs of operations on all topics and groups together. */
module ManagerRuns {
  import opened RoundRobin
  import opened TopicManager
  import opened Wrappers

  datatype Lists = Lists(subscribers: map<string, seq<Member>>, groups: GroupMap)
  {
    function View(t: string, g: string): Group {
      Lookup(subscribers, groups, t, g)
    }
  }

  /** The lists passed through, from none on; every operation changes them as the manager's method for it does. */
  ghost predicate IsRun(run: seq<Lists>, ops: seq<Operation>) {
    && |run| == |ops| + 1
    && (forall t, g :: run[0].View(t, g) == NOBODY)
    && forall i, t, g :: 0 <= i < |ops| ==> run[i + 1].View(t, g) == Apply(run[i].View(t, g), ops[i], t, g)
  }

  /** What happened to one group. */
  function StepsOf(ops: seq<Operation>, t: string, g: string): seq<Step> {
    if ops == [] then []
    else
      var front, last := StepsOf(ops[..|ops| - 1], t, g), StepFor(ops[|ops| - 1], t, g);
      if last.None? then front else front + [last.value]
  }

  /** Every group goes its own way, whatever is done to the others. */
  lemma {:induction false} GroupIsAfterItsSteps(run: seq<Lists>, ops: seq<Operation>, i: nat, t: string, g: string)
    requires IsRun(run, ops) && i < |run|
    ensures run[i].View(t, g) == After(StepsOf(ops[..i], t, g))
  {
    if i > 0 {
      GroupIsAfterItsSteps(run, ops, i - 1, t, g);
      OneMore(run, ops, i - 1, t, g);
      assert ops[..i][..i - 1] == ops[..i - 1] && ops[..i][i - 1] == ops[i - 1];
      var front, last := StepsOf(ops[..i - 1], t, g), StepFor(ops[i - 1], t, g);
      if last.Some? {
        assert (front + [last.value])[..|front|] == front;
      }
    }
  }

  lemma OneMore(run: seq<Lists>, ops: seq<Operation>, i: nat, t: string, g: string)
    requires IsRun(run, ops) && i < |ops|
    ensures run[i + 1].View(t, g) == Apply(run[i].View(t, g), ops[i], t, g)
  {
  }

  predicate Selects(op: Operation, t: string, g: string) {
    StepFor(op, t, g) == Some(Step.Selecting)
  }

  /** The subscribers selected from one group by operations `i` to `j - 1`. */
  ghost function SelectedIn(run: seq<Lists>, ops: seq<Operation>, i: nat, j: nat, t: string, g: string): seq<string>
    requires |run| == |ops| + 1 && i <= j <= |ops|
    decreases j - i
  {
    if i == j then []
    else (if Selects(ops[i], t, g) then [Selected(run[i].View(t, g))] else []) + SelectedIn(run, ops, i + 1, j, t, g)
  }

  ghost predicate SameMembers(run: seq<Lists>, i: nat, j: nat, t: string, g: string)
    requires i <= j < |run|
  {
    forall x :: i <= x <= j ==> run[x].View(t, g).members == run[i].View(t, g).members
  }

  /** Whatever else goes on in between, the selections from a group are made one after another. */
  lemma {:induction false} SelectionsArePicks(run: seq<Lists>, ops: seq<Operation>, i: nat, j: nat, t: string, g: string)
    requires IsRun(run, ops) && |run| == |ops| + 1 && i <= j < |run| && SameMembers(run, i, j, t, g) && run[i].View(t, g).members != []
    ensures var picked := SelectedIn(run, ops, i, j, t, g);
            picked == Picks(run[i].View(t, g), |picked|)
    decreases j - i
  {
    hide IsRun, Take, Selected;
    if i < j {
      var before := run[i].View(t, g);
      OneMore(run, ops, i, t, g);
      assert run[i + 1].View(t, g).members == before.members;
      SelectionsArePicks(run, ops, i + 1, j, t, g);
      var step := StepFor(ops[i], t, g);
      if Selects(ops[i], t, g) {
        SelectingAdvances(before);
      } else if step.Some? {
        SameMembersSameGroup(before, step.value);
      }
    }
  }

  lemma SelectingAdvances(g: Group)
    ensures Take(g, Step.Selecting) == Advance(g)
  {
  }

  /** What takes a member off a list. */
  predicate Removes(op: Operation, t: string, g: string, m: Member) {
    || op == Unsubscribing(t, m.subscriberId, g)
    || op == Disconnecting(m.connId)
    || op == Unregistering(t)
  }

  /** The member was put on the list by operation `i`, and nothing up to `j` has taken it off. */
  ghost predicate JoinedSince(run: seq<Lists>, ops: seq<Operation>, i: nat, j: nat, t: string, g: string, m: Member)
    requires |run| == |ops| + 1 && i < j <= |ops|
  {
    && ops[i] == Subscribing(t, m, g) && HasNoId(run[i].View(t, g).members, m.subscriberId)
    && forall k :: i < k < j ==> !Removes(ops[k], t, g, m)
  }

  lemma MemberAfter(before: Group, op: Operation, t: string, g: string, m: Member)
    ensures m in Apply(before, op, t, g).members <==>
            || (m in before.members && !Removes(op, t, g, m))
            || (op == Subscribing(t, m, g) && HasNoId(before.members, m.subscriberId))
  {
    match op
    case Subscribing(topic, other, group) => SubscribingMeans(before, topic, other, group, t, g);
    case Unsubscribing(topic, id, group) => LeavingMeans(before, ById(id));
    case Disconnecting(connId) => LeavingMeans(before, ByConnection(connId));
    case _ =>
  }

  /** Somebody is on a list exactly if it has joined and neither left nor been disconnected nor lost the topic since. */
  lemma {:induction false} MemberExactly(run: seq<Lists>, ops: seq<Operation>, j: nat, t: string, g: string, m: Member)
    requires IsRun(run, ops) && |run| == |ops| + 1 && j < |run|
    ensures m in run[j].View(t, g).members <==> exists i :: 0 <= i < j && JoinedSince(run, ops, i, j, t, g, m)
  {
    hide IsRun, Lookup, HasNoId;
    if j == 0 {
      NobodyAtFirst(run, ops, t, g);
    } else {
      var before, op := run[j - 1].View(t, g), ops[j - 1];
      MemberExactly(run, ops, j - 1, t, g, m);
      OneMore(run, ops, j - 1, t, g);
      MemberAfter(before, op, t, g, m);
      if m in before.members && !Removes(op, t, g, m) {
        var i :| 0 <= i < j - 1 && JoinedSince(run, ops, i, j - 1, t, g, m);
        assert JoinedSince(run, ops, i, j, t, g, m);
      } else if m in run[j].View(t, g).members {
        assert JoinedSince(run, ops, j - 1, j, t, g, m);
      } else {
        forall i | 0 <= i < j
          ensures !JoinedSince(run, ops, i, j, t, g, m)
        {
          assert i < j - 1 ==> !JoinedSince(run, ops, i, j - 1, t, g, m) || Removes(ops[j - 1], t, g, m);
        }
      }
    }
  }

  lemma NobodyAtFirst(run: seq<Lists>, ops: seq<Operation>, t: string, g: string)
    requires IsRun(run, ops)
    ensures |run| > 0 && run[0].View(t, g).members == []
  {
  }

  /**
   In any run of operations on any topics and groups: while the members of a group stay the same, its selections, however
   they are spread among the other operations, pick each member equally often, up to one.
  */
  lemma FairInEveryRun(run: seq<Lists>, ops: seq<Operation>, i: nat, j: nat, t: string, g: string, m: nat)
    requires IsRun(run, ops) && |run| == |ops| + 1 && i <= j < |run| && SameMembers(run, i, j, t, g) && m < |run[i].View(t, g).members|
    ensures var members := run[i].View(t, g).members;
            var picked := SelectedIn(run, ops, i, j, t, g);
            Even(CountOf(picked, members[m].subscriberId), |picked|, |members|)
  {
    hide IsRun, Even, Take, Lookup;
    SelectionsArePicks(run, ops, i, j, t, g);
    GroupIsAfterItsSteps(run, ops, i, t, g);
    FairAfterAnyHistory(StepsOf(ops[..i], t, g), |SelectedIn(run, ops, i, j, t, g)|, m);
  }

  lemma {:induction false} CountedIsPicked(picks: seq<string>, id: string)
    requires CountOf(picks, id) > 0
    ensures id in picks
  {
    if picks[0] != id {
      CountedIsPicked(picks[1..], id);
    }
  }

  /**
   Who has joined a group and not been taken off it is selected: while the members stay the same, it is among any
   selections in a row that are as many as the members.
  */
  lemma WhoJoinedIsSelected(
    run: seq<Lists>, ops: seq<Operation>, joined: nat, i: nat, j: nat, t: string, g: string, m: Member)
    requires IsRun(run, ops) && |run| == |ops| + 1 && joined < i <= j < |run| && JoinedSince(run, ops, joined, i, t, g, m)
    requires SameMembers(run, i, j, t, g) && |SelectedIn(run, ops, i, j, t, g)| >= |run[i].View(t, g).members|
    ensures m.subscriberId in SelectedIn(run, ops, i, j, t, g)
  {
    hide IsRun, Lookup, JoinedSince, SameMembers;
    MemberExactly(run, ops, i, t, g, m);
    var members, picked := run[i].View(t, g).members, SelectedIn(run, ops, i, j, t, g);
    var n :| 0 <= n < |members| && members[n] == m;
    FairInEveryRun(run, ops, i, j, t, g, n);
    AtLeastOne(|picked|, |members|);
    CountedIsPicked(picked, m.subscriberId);
  }

  lemma AtLeastOne(k: nat, n: nat)
    requires k >= n > 0
    ensures k / n >= 1
  {
  }
}
