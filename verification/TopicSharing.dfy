/** When a consumer keeps what it was handed: the retry queue does not keep the consumers apart. */
module TopicSharing {
  import opened TopicState
  import opened MessageSeqs
  import opened TopicInvariants
  import opened TopicRuns
  import opened RetryOrders
  import opened TopicPull
  import opened TopicTheorems

  /** Only these consumers pull and acknowledge. */
  predicate OnlyBy(a: Action, keys: set<ConsumerKey>) {
    match a
    case Pulling(key, _, _, _) => key in keys
    case Acking(x) => x.0 in keys
    case _ => true
  }

  /** What was delivered to a consumer that has not acknowledged it, and has not expired, has a copy somewhere. */
  ghost predicate KeptForEach(s: System) {
    forall d :: d in s.history.deliveries ==> KeptFor(s, d)
  }

  ghost predicate KeptFor(s: System, d: Delivery) {
    (d.key, d.msg.id) in s.history.acked || Expired(d.msg, s.history.now) || HasCopy(s, d.msg.id)
  }

  ghost predicate AllRunsKeep(keys: set<ConsumerKey>, c: Settings) {
    forall run, actions, i ::
      IsRun(run, actions, c) && (forall k :: 0 <= k < |actions| ==> OnlyBy(actions[k], keys)) && 0 <= i < |run| ==>
        KeptForEach(run[i])
  }

  // One consumer.

  /** Deliveries and acknowledgements are this consumer's. */
  ghost predicate AllBy(s: System, keys: set<ConsumerKey>) {
    (forall d :: d in s.history.deliveries ==> d.key in keys) && (forall x :: x in s.history.acked ==> x.0 in keys)
  }

  lemma {:induction false} ScanLogAcksNothing(s: System, key: ConsumerKey, j: nat, goal: nat, steady: SteadyClock)
    ensures ScanLog(s, key, j, goal, steady).history.acked == s.history.acked
    decreases |s.topic.log| - j
  {
    if j < |s.topic.log| && |s.history.deliveries| < goal {
      ScanLogAcksNothing(VisitLog(s, key, s.topic.log[j], steady), key, j + 1, goal, steady);
    }
  }

  lemma {:induction false} ScanRetryAcksNothing(s: System, key: ConsumerKey, j: nat, goal: nat, steady: SteadyClock)
    ensures ScanRetry(s, key, j, goal, steady).history.acked == s.history.acked
    decreases |s.topic.retry| - j
  {
    if j < |s.topic.retry| && |s.history.deliveries| < goal {
      var m := s.topic.retry[j];
      if Expired(m, s.history.now) {
        ScanRetryAcksNothing(DropRetry(s, j), key, j, goal, steady);
      } else if (key, m.id) in s.topic.pending {
        ScanRetryAcksNothing(s, key, j + 1, goal, steady);
      } else {
        ScanRetryAcksNothing(Deliver(DropRetry(s, j), key, m, false, steady), key, j, goal, steady);
      }
    }
  }

  lemma PullAcksNothing(s: System, key: ConsumerKey, max: nat, now: nat, steady: SteadyClock)
    ensures Pull(s, key, max, now, steady).history.acked == s.history.acked
  {
    hide ScanLog, ScanRetry, DrainAll;
    var goal := |s.history.deliveries| + max;
    DrainAllLeavesCopies(Tick(s, now));
    ScanLogAcksNothing(OpenPull(s, key, now), key, 0, goal, steady);
    ScanRetryAcksNothing(PullLog(s, key, max, now, steady), key, 0, goal, steady);
  }

  lemma ActionKeepsAllBy(s: System, a: Action, c: Settings, keys: set<ConsumerKey>)
    requires Enabled(s, a) && OnlyBy(a, keys) && AllBy(s, keys)
    ensures AllBy(Do(s, a, c), keys)
  {
    hide Pull, RetryScan;
    var s' := Do(s, a, c);
    match a
    case Pulling(key, max, now, steady) =>
      PullAcksNothing(s, key, max, now, steady);
      PullIsExclusiveAndExhaustive(s, key, max, now, steady);
      forall d | d in s'.history.deliveries
        ensures d.key in keys
      {
        var j: nat :| j < |s'.history.deliveries| && s'.history.deliveries[j] == d;
        if j >= |s.history.deliveries| {
          assert Outstanding(s, s', key, j, steady);
        }
      }
    case Retrying(order, now, steady) => RetryScanDeliversNothing(Tick(s, now), order, steady, c);
    case _ =>
  }

  lemma {:induction false} RunKeepsAllBy(run: seq<System>, actions: seq<Action>, c: Settings, keys: set<ConsumerKey>, i: nat)
    requires IsRun(run, actions, c) && i < |run|
    requires forall k :: 0 <= k < |actions| ==> OnlyBy(actions[k], keys)
    ensures AllBy(run[i], keys)
  {
    if i > 0 {
      RunKeepsAllBy(run, actions, c, keys, i - 1);
      ActionKeepsAllBy(run[i - 1], actions[i - 1], c, keys);
    }
  }

  /** With one consumer, an acknowledgement by anybody is its own. */
  lemma OneConsumerKeeps(s: System, maxRetry: nat, keys: set<ConsumerKey>)
    requires Inv(s, maxRetry) && AllBy(s, keys) && |keys| <= 1
    ensures KeptForEach(s)
  {
    forall d | d in s.history.deliveries
      ensures KeptFor(s, d)
    {
      DeliveredSurvives(s, maxRetry, d);
      if AckedBySome(s.history.acked, d.msg.id) {
        var x :| x in s.history.acked && x.1 == d.msg.id;
        OneKey(keys, x.0, d.key);
        assert x == (d.key, d.msg.id);
      }
    }
  }

  lemma OneKey(keys: set<ConsumerKey>, a: ConsumerKey, b: ConsumerKey)
    requires |keys| <= 1 && a in keys && b in keys
    ensures a == b
  {
    if a != b {
      assert {a, b} <= keys && |{a, b}| == 2;
      SubsetSize({a, b}, keys);
    }
  }

  lemma {:induction false} SubsetSize<T>(a: set<T>, b: set<T>)
    requires a <= b
    ensures |a| <= |b|
  {
    if a != {} {
      var x :| x in a;
      SubsetSize(a - {x}, b - {x});
    }
  }

  // No retries.

  /** What is not acknowledged is still pending for its consumer, or a dead letter. */
  ghost predicate Unretried(s: System) {
    && s.topic.retry == []
    && forall d :: d in s.history.deliveries ==> HeldFor(s, d)
  }

  ghost predicate HeldFor(s: System, d: Delivery) {
    || (d.key, d.msg.id) in s.history.acked
    || Expired(d.msg, s.history.now)
    || (d.key, d.msg.id) in s.topic.pending
    || Holds(s.topic.dlq, d.msg.id)
    || Holds(s.history.dlqPulled, d.msg.id)
  }

  lemma {:induction false} ScanLogLeavesRetry(s: System, key: ConsumerKey, j: nat, goal: nat, steady: SteadyClock)
    ensures var s' := ScanLog(s, key, j, goal, steady);
            s'.topic.retry == s.topic.retry && s'.topic.dlq == s.topic.dlq && s'.history.dlqPulled == s.history.dlqPulled
    decreases |s.topic.log| - j
  {
    if j < |s.topic.log| && |s.history.deliveries| < goal {
      ScanLogLeavesRetry(VisitLog(s, key, s.topic.log[j], steady), key, j + 1, goal, steady);
    }
  }

  lemma PullUnretried(s: System, key: ConsumerKey, max: nat, now: nat, steady: SteadyClock)
    requires Unretried(s) && now >= s.history.now
    ensures Unretried(Pull(s, key, max, now, steady))
  {
    hide ScanLog, DrainAll;
    var s' := Pull(s, key, max, now, steady);
    DrainAllLeavesCopies(Tick(s, now));
    ScanLogLeavesRetry(OpenPull(s, key, now), key, 0, |s.history.deliveries| + max, steady);
    PullAcksNothing(s, key, max, now, steady);
    PullIsExclusiveAndExhaustive(s, key, max, now, steady);
    forall d | d in s'.history.deliveries
      ensures HeldFor(s', d)
    {
      var j: nat :| j < |s'.history.deliveries| && s'.history.deliveries[j] == d;
      if j < |s.history.deliveries| {
        assert s.history.deliveries[j] == d && HeldFor(s, d);
      } else {
        assert Outstanding(s, s', key, j, steady);
      }
    }
  }

  lemma HoldsInConcat(a: seq<Message>, b: seq<Message>, id: nat)
    ensures Holds(a + b, id) <==> Holds(a, id) || Holds(b, id)
  {
    assert forall j :: 0 <= j < |a| ==> (a + b)[j] == a[j];
    assert forall j :: 0 <= j < |b| ==> (a + b)[|a| + j] == b[j];
    if Holds(a + b, id) {
      var j :| 0 <= j < |a + b| && (a + b)[j].id == id;
      assert if j < |a| then a[j].id == id else b[j - |a|].id == id;
    }
  }

  lemma TimeOutUnretried(s: System, x: CopyKey, steady: int, c: Settings)
    requires Unretried(s) && c.maxRetry == 0 && x in s.topic.pending && CopiesInv(s, 0) && LogInv(s)
    ensures Unretried(TimeOut(s, x, steady, c))
  {
    var p, s' := s.topic.pending[x], TimeOut(s, x, steady, c);
    forall d | d in s'.history.deliveries
      ensures HeldFor(s', d)
    {
      assert HeldFor(s, d);
      HoldsInConcat(s.topic.dlq, [p.msg], d.msg.id);
      if (d.key, d.msg.id) == x {
        SameExpiry(s, p.msg, d.msg);
        assert [p.msg][0].id == d.msg.id;
      }
    }
  }

  /** All copies of a message expire together. */
  lemma SameExpiry(s: System, a: Message, b: Message)
    requires LogInv(s) && CopyOf(a, s.history.stored, 0) && CopyOf(b, s.history.stored, 0) && a.id == b.id
    ensures a.expiresAt == b.expiresAt
  {
    StoredUnique(s, a.(retryCount := 0), b.(retryCount := 0));
  }

  lemma {:induction false} RetryScanUnretried(s: System, order: seq<CopyKey>, steady: int, c: Settings)
    requires Unretried(s) && c.maxRetry == 0 && Inv(s, 0) && Visitable(order, s.topic.pending)
    ensures Unretried(RetryScan(s, order, steady, c))
    decreases |order|
  {
    hide Inv, TimeOut, RetryScan, Unretried;
    InvParts(s, 0);
    if order == [] {
      RetryScanNothing(s, steady, c);
    } else {
      RetryScanFirst(s, order, steady, c);
      TimeOutUnretried(s, order[0], steady, c);
      TimeOutKeepsInv(s, order[0], steady, c);
      RetryScanUnretried(TimeOut(s, order[0], steady, c), order[1..], steady, c);
    }
  }

  lemma ExpiryScanUnretried(s: System, now: nat)
    requires Unretried(s) && CopiesInv(s, 0) && LogInv(s) && now >= s.history.now
    ensures Unretried(ExpiryScan(s, now))
  {
    var s' := ExpiryScan(s, now);
    forall d | d in s'.history.deliveries
      ensures HeldFor(s', d)
    {
      assert HeldFor(s, d);
      if (d.key, d.msg.id) in s.topic.pending {
        SameExpiry(s, s.topic.pending[(d.key, d.msg.id)].msg, d.msg);
      }
    }
  }

  lemma ActionKeepsUnretried(s: System, a: Action, c: Settings)
    requires Inv(s, 0) && c.maxRetry == 0 && Enabled(s, a) && Unretried(s)
    ensures Unretried(Do(s, a, c))
  {
    hide Inv, Pull, RetryScan, ExpiryScan;
    InvParts(s, 0);
    var s' := Do(s, a, c);
    match a
    case Publishing(_, _, _, _, _) => assert forall d :: HeldFor(s, d) ==> HeldFor(s', d);
    case Pulling(key, max, now, steady) => PullUnretried(s, key, max, now, steady);
    case Acking(x) => assert forall d :: HeldFor(s, d) ==> HeldFor(s', d);
    case PullingDlq(max) =>
      var count := if max < |s.topic.dlq| then max else |s.topic.dlq|;
      forall d | d in s.history.deliveries
        ensures HeldFor(s', d)
      {
        assert HeldFor(s, d) && s.topic.dlq == s.topic.dlq[..count] + s.topic.dlq[count..];
        HoldsInConcat(s.topic.dlq[..count], s.topic.dlq[count..], d.msg.id);
        HoldsInConcat(s.history.dlqPulled, s.topic.dlq[..count], d.msg.id);
      }
    case Retrying(order, now, steady) =>
      TickKeepsInv(s, now, 0);
      assert forall d :: HeldFor(s, d) ==> HeldFor(Tick(s, now), d);
      RetryScanUnretried(Tick(s, now), order, steady, c);
    case Expiring(now) => ExpiryScanUnretried(s, now);
  }

  lemma {:induction false} RunKeepsUnretried(run: seq<System>, actions: seq<Action>, c: Settings, i: nat)
    requires IsRun(run, actions, c) && i < |run| && c.maxRetry == 0
    ensures Unretried(run[i])
  {
    hide Inv, Unretried;
    if i == 0 {
      assert Unretried(EMPTY_SYSTEM) by { NothingDelivered(); }
    } else {
      RunKeepsUnretried(run, actions, c, i - 1);
      RunKeepsInv(run, actions, c, i - 1);
      ActionKeepsUnretried(run[i - 1], actions[i - 1], c);
    }
  }

  lemma NothingDelivered()
    ensures Unretried(EMPTY_SYSTEM)
  {
  }

  lemma UnretriedKeeps(s: System)
    requires Unretried(s)
    ensures KeptForEach(s)
  {
    forall d | d in s.history.deliveries
      ensures KeptFor(s, d)
    {
      assert HeldFor(s, d);
    }
  }

  // Two consumers, and retries.

  /** One more action at the end of a run. */
  lemma RunSnoc(run: seq<System>, actions: seq<Action>, c: Settings, a: Action, s': System)
    requires IsRun(run, actions, c) && |run| == |actions| + 1
    requires Enabled(run[|actions|], a) && s' == Do(run[|actions|], a, c)
    ensures IsRun(run + [s'], actions + [a], c)
  {
  }

  lemma DrainFirst(s: System, m: Message)
    requires s.topic.ring + s.topic.log == [m] && |m.payload| == 0
    ensures DrainAll(s) == s.(topic := s.topic.(ring := [], log := [m]))
  {
    assert |s.topic.ring| + |s.topic.log| == 1 && (s.topic.ring + s.topic.log)[0] == m;
    if s.topic.ring == [] {
      assert s.topic.log == [m];
    } else {
      assert s.topic.log == [] && s.topic.ring == [m] && [m][1..] == [] && [] + [m] == [m];
      assert DrainOne(s) == s.(topic := s.topic.(ring := [], log := [m]));
      assert DrainAll(DrainOne(s)) == DrainOne(s);
    }
  }

  /** A pull of one message, which is waiting in the ring or in the log. */
  lemma PullFirst(s: System, key: ConsumerKey, m: Message, clock: SteadyClock)
    requires s.topic.ring + s.topic.log == [m] && |m.payload| == 0 && m.id == 1 && m.expiresAt == 0
    requires key !in s.topic.offsets && (key, m.id) !in s.topic.pending
    ensures Pull(s, key, 1, 0, clock) ==
            System(
              s.topic.(ring := [], log := [m], offsets := s.topic.offsets[key := 2],
                       pending := s.topic.pending[(key, 1) := Pending(m, clock(|s.history.deliveries|))]),
              s.history.(deliveries := s.history.deliveries + [Delivery(key, m, true)], now := 0))
  {
    var goal := |s.history.deliveries| + 1;
    DrainFirst(Tick(s, 0), m);
    var s1 := OpenPull(s, key, 0);
    assert s1.topic.log == [m] && Offset(s1.topic, key) == 1 && s1.history.deliveries == s.history.deliveries;
    var s2 := VisitLog(s1, key, m, clock);
    assert s1.topic.offsets[key := 2] == s.topic.offsets[key := 2];
    assert |s2.history.deliveries| == goal;
    assert ScanLog(s2, key, 1, goal, clock) == s2;
    assert ScanLog(s1, key, 0, goal, clock) == ScanLog(s2, key, 1, goal, clock);
    assert ScanRetry(s2, key, 0, goal, clock) == s2;
  }

  /** Two copies of one message time out and become one. */
  lemma BothTimeOut(s: System, a: ConsumerKey, b: ConsumerKey, m: Message, c: Settings) returns (s': System)
    requires a != b && s.topic.retry == [] && s.topic.pending == map[(a, 1) := Pending(m, 0), (b, 1) := Pending(m, 0)]
    requires m.id == 1 && m.retryCount == 0 && m.expiresAt == 0 && c.maxRetry > 0 && s.history.now == 0
    ensures Enumerates([(a, 1), (b, 1)], s.topic.pending)
    ensures s' == RetryScan(Tick(s, 0), [(a, 1), (b, 1)], c.pendingTimeout, c)
    ensures s' == s.(topic := s.topic.(retry := [m.(retryCount := 1)], pending := map[]))
  {
    var order: seq<CopyKey> := [(a, 1), (b, 1)];
    assert order[0] == (a, 1) && order[1] == (b, 1);
    var m' := m.(retryCount := 1);
    var s1 := TimeOut(s, (a, 1), c.pendingTimeout, c);
    assert Without([], 1) == [] && [] + [m'] == [m'];
    assert s1.topic.retry == [m'] && s1.topic.pending == map[(b, 1) := Pending(m, 0)];
    s' := TimeOut(s1, (b, 1), c.pendingTimeout, c);
    assert Without([m'], 1) == [];
    assert s'.topic.retry == [m'] && s'.topic.pending == map[];
    assert Tick(s, 0) == s;
    RetryScanFirst(s, order, c.pendingTimeout, c);
    RetryScanFirst(s1, order[1..], c.pendingTimeout, c);
    assert order[1..] == [(b, 1)] && order[1..][1..] == [];
    RetryScanNothing(s', c.pendingTimeout, c);
  }

  /** A pull of the one message in the retry queue. */
  lemma PullRetried(s: System, key: ConsumerKey, m: Message, clock: SteadyClock) returns (s': System)
    requires s.topic.ring == [] && s.topic.log == [m.(retryCount := 0)] && s.topic.retry == [m] && s.topic.pending == map[]
    requires m.id == 1 && m.expiresAt == 0 && Offset(s.topic, key) == 2 && s.history.now == 0
    ensures s' == Pull(s, key, 1, 0, clock)
    ensures s'.topic.(pending := map[]) == s.topic.(retry := []) && s'.topic.pending.Keys == {(key, 1)}
    ensures s'.history == s.history.(deliveries := s.history.deliveries + [Delivery(key, m, false)])
  {
    var goal := |s.history.deliveries| + 1;
    assert Tick(s, 0) == s && DrainAll(s) == s;
    assert s.topic.offsets[key := 2] == s.topic.offsets;
    assert OpenPull(s, key, 0) == s;
    assert VisitLog(s, key, s.topic.log[0], clock) == s;
    assert ScanLog(s, key, 0, goal, clock) == ScanLog(s, key, 1, goal, clock) == s;
    s' := Deliver(DropRetry(s, 0), key, m, false, clock);
    assert ScanRetry(s, key, 0, goal, clock) == ScanRetry(s', key, 0, goal, clock) == s';
  }

  lemma OnePublished(m: Message, c: Settings) returns (run: seq<System>, actions: seq<Action>, s: System)
    requires m == Message(1, [], 0, 0, 0)
    ensures IsRun(run, actions, c) && |run| == 2 && s == run[1]
    ensures actions == [Publishing([], 0, 0, 0, true)]
    ensures s == System(EMPTY_SYSTEM.topic.(ring := [m], nextId := 2), EMPTY_SYSTEM.history.(stored := [m]))
  {
    s := Publish(EMPTY_SYSTEM, [], 0, 0, 0, true);
    run, actions := [EMPTY_SYSTEM, s], [Publishing([], 0, 0, 0, true)];
    assert [] + [m] == [m];
  }

  /** Both consumers have been handed the one message there is, both at time 0. */
  lemma BothHanded(a: ConsumerKey, b: ConsumerKey, m: Message, c: Settings)
    returns (run: seq<System>, actions: seq<Action>, s: System)
    requires a != b && m == Message(1, [], 0, 0, 0)
    ensures IsRun(run, actions, c) && |actions| == 3 && |run| == 4 && s == run[3]
    ensures forall k :: 0 <= k < |actions| ==> OnlyBy(actions[k], {a, b})
    ensures s.topic.ring == [] && s.topic.log == [m] && s.topic.retry == [] && s.topic.dlq == []
    ensures s.topic.pending == map[(a, 1) := Pending(m, 0), (b, 1) := Pending(m, 0)]
    ensures Offset(s.topic, a) == 2 && Offset(s.topic, b) == 2
    ensures s.history == History([m], {}, [Delivery(a, m, true), Delivery(b, m, true)], {}, [], 0)
  {
    hide Pull, IsRun, DrainAll;
    var clock: SteadyClock := _ => 0;
    var s1;
    run, actions, s1 := OnePublished(m, c);
    PullFirst(s1, a, m, clock);
    var s2 := Pull(s1, a, 1, 0, clock);
    RunSnoc(run, actions, c, Pulling(a, 1, 0, clock), s2);
    run, actions := run + [s2], actions + [Pulling(a, 1, 0, clock)];
    PullFirst(s2, b, m, clock);
    s := Pull(s2, b, 1, 0, clock);
    RunSnoc(run, actions, c, Pulling(b, 1, 0, clock), s);
    run, actions := run + [s], actions + [Pulling(b, 1, 0, clock)];
    assert s.topic.pending[(b, 1)] == Pending(m, 0) && s.topic.pending[(a, 1)] == Pending(m, 0);
  }

  /**
   With any two consumers, any timeout and any retries at all: both are handed a message, both let it time out, the two
   copies become one, and when the first consumer pulls and acknowledges that one, the second, which never acknowledged,
   cannot get the message any more.
  */
  lemma RetriesAreShared(a: ConsumerKey, b: ConsumerKey, c: Settings) returns (run: seq<System>, actions: seq<Action>, last: System)
    requires a != b && c.maxRetry > 0
    ensures IsRun(run, actions, c) && |actions| == 6 && |run| == 7 && last == run[6]
    ensures forall k :: 0 <= k < |actions| ==> OnlyBy(actions[k], {a, b})
    ensures !KeptForEach(last)
    ensures (b, 1) in HandedTo(last.history.deliveries) && (b, 1) !in last.history.acked
    ensures Accepted(actions) == [Message(1, [], 0, 0, 0)] && !HasCopy(last, 1) && Offset(last.topic, b) == 2
  {
    hide Pull, RetryScan, IsRun, DrainAll;
    var m := Message(1, [], 0, 0, 0);
    var clock: SteadyClock := _ => 0;
    var s3;
    run, actions, s3 := BothHanded(a, b, m, c);
    var s4 := BothTimeOut(s3, a, b, m, c);
    var retrying := Retrying([(a, 1), (b, 1)], 0, c.pendingTimeout);
    RunSnoc(run, actions, c, retrying, s4);
    run, actions := run + [s4], actions + [retrying];
    var s5 := PullRetried(s4, a, m.(retryCount := 1), clock);
    RunSnoc(run, actions, c, Pulling(a, 1, 0, clock), s5);
    run, actions := run + [s5], actions + [Pulling(a, 1, 0, clock)];
    last := Ack(s5, (a, 1));
    RunSnoc(run, actions, c, Acking((a, 1)), last);
    run, actions := run + [last], actions + [Acking((a, 1))];
    assert last.history.deliveries[1] == Delivery(b, m, true);
    assert !KeptFor(last, Delivery(b, m, true));
    StoredIsAccepted(run, actions, c, |actions|);
    assert actions[..|actions|] == actions;
  }

  lemma TwoConsumers(keys: set<ConsumerKey>) returns (a: ConsumerKey, b: ConsumerKey)
    requires |keys| > 1
    ensures a in keys && b in keys && a != b
  {
    a :| a in keys;
    var others := keys - {a};
    assert |others| > 0;
    b :| b in others;
  }

  /**
   In all runs in which only consumers from `keys` pull and acknowledge, every unexpired message handed to a consumer that
   has not acknowledged it can still be had, exactly if there is no second consumer or nothing is ever retried.
  */
  lemma KeptExactly(keys: set<ConsumerKey>, c: Settings)
    ensures AllRunsKeep(keys, c) <==> |keys| <= 1 || c.maxRetry == 0
  {
    hide Inv, IsRun, KeptForEach, Unretried, AllBy;
    if |keys| <= 1 || c.maxRetry == 0 {
      forall run, actions, i |
        IsRun(run, actions, c) && (forall k :: 0 <= k < |actions| ==> OnlyBy(actions[k], keys)) && 0 <= i < |run|
        ensures KeptForEach(run[i])
      {
        RunKeepsInv(run, actions, c, i);
        if |keys| <= 1 {
          RunKeepsAllBy(run, actions, c, keys, i);
          OneConsumerKeeps(run[i], c.maxRetry, keys);
        } else {
          RunKeepsUnretried(run, actions, c, i);
          UnretriedKeeps(run[i]);
        }
      }
    } else {
      var a, b := TwoConsumers(keys);
      var run, actions, last := RetriesAreShared(a, b, c);
      forall k | 0 <= k < |actions|
        ensures OnlyBy(actions[k], keys)
      {
        assert OnlyBy(actions[k], {a, b});
      }
      assert !KeptForEach(run[6]);
    }
  }
}
