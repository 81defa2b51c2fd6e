/** What one pull hands out, and what it does not depend on. */
module TopicPull {
  import opened Bytes
  import opened TopicState
  import opened TopicRuns
  import opened RetryOrders

  /** State `s` came out of `s0` by handing messages to `key`, none of them twice or while it was pending. */
  ghost predicate Handing(s0: System, s: System, key: ConsumerKey, steady: SteadyClock) {
    && s0.history.deliveries <= s.history.deliveries
    && (forall x :: x in s0.topic.pending ==> x in s.topic.pending && s.topic.pending[x] == s0.topic.pending[x])
    && (forall j :: |s0.history.deliveries| <= j < |s.history.deliveries| ==> Outstanding(s0, s, key, j, steady))
    && (forall i, j :: |s0.history.deliveries| <= i < j < |s.history.deliveries| ==>
          s.history.deliveries[i].msg.id != s.history.deliveries[j].msg.id)
  }

  /** Delivery `j` has not expired, was not pending, and is pending since its reading of the steady clock. */
  ghost predicate Outstanding(s0: System, s: System, key: ConsumerKey, j: nat, steady: SteadyClock)
    requires j < |s.history.deliveries|
  {
    var d := s.history.deliveries[j];
    && d.key == key
    && !Expired(d.msg, s.history.now)
    && (key, d.msg.id) !in s0.topic.pending
    && (key, d.msg.id) in s.topic.pending
    && s.topic.pending[(key, d.msg.id)] == Pending(d.msg, steady(j))
  }

  lemma HandOne(s0: System, s: System, key: ConsumerKey, m: Message, fromLog: bool, steady: SteadyClock)
    requires Handing(s0, s, key, steady) && !Expired(m, s.history.now) && (key, m.id) !in s.topic.pending
    ensures Handing(s0, Deliver(s, key, m, fromLog, steady), key, steady)
  {
    var s' := Deliver(s, key, m, fromLog, steady);
    forall j: nat | |s0.history.deliveries| <= j < |s'.history.deliveries|
      ensures Outstanding(s0, s', key, j, steady)
      ensures j < |s.history.deliveries| ==> s'.history.deliveries[j].msg.id != m.id
    {
      if j < |s.history.deliveries| {
        assert Outstanding(s0, s, key, j, steady);
      }
    }
  }

  /** The same messages handed out, with offsets, log or retry queue changed otherwise. */
  lemma SameHanding(s0: System, s: System, s': System, key: ConsumerKey, steady: SteadyClock)
    requires Handing(s0, s, key, steady) && s'.history == s.history && s'.topic.pending == s.topic.pending
    ensures Handing(s0, s', key, steady)
  {
    forall j: nat | |s0.history.deliveries| <= j < |s'.history.deliveries|
      ensures Outstanding(s0, s', key, j, steady)
    {
      assert Outstanding(s0, s, key, j, steady);
    }
  }

  lemma VisitLogHands(s0: System, s: System, key: ConsumerKey, m: Message, steady: SteadyClock)
    requires Handing(s0, s, key, steady)
    ensures Handing(s0, VisitLog(s, key, m, steady), key, steady)
    ensures |VisitLog(s, key, m, steady).history.deliveries| <= |s.history.deliveries| + 1
  {
    hide Handing;
    if m.id >= Offset(s.topic, key) {
      if Expired(m, s.history.now) {
        SameHanding(s0, s, MoveOffset(s, key, m.id + 1), key, steady);
      } else if (key, m.id) !in s.topic.pending {
        var s1 := Deliver(s, key, m, true, steady);
        HandOne(s0, s, key, m, true, steady);
        SameHanding(s0, s1, MoveOffset(s1, key, m.id + 1), key, steady);
      }
    }
  }

  /** A log scan that stops short of its goal has passed the whole log. */
  lemma {:induction false} ScanLogHands(s0: System, s: System, key: ConsumerKey, j: nat, goal: nat, steady: SteadyClock)
    requires Handing(s0, s, key, steady) && |s.history.deliveries| <= goal && Scanned(s, key, j)
    ensures var s' := ScanLog(s, key, j, goal, steady);
            && Handing(s0, s', key, steady) && |s'.history.deliveries| <= goal
            && (|s'.history.deliveries| < goal ==> Scanned(s', key, |s'.topic.log|))
            && s'.topic.retry == s.topic.retry && s'.history.now == s.history.now
    decreases |s.topic.log| - j
  {
    hide Handing;
    if j < |s.topic.log| && |s.history.deliveries| < goal {
      VisitLogHands(s0, s, key, s.topic.log[j], steady);
      VisitLogScans(s, key, j, steady);
      ScanLogHands(s0, VisitLog(s, key, s.topic.log[j], steady), key, j + 1, goal, steady);
    }
  }

  /** The first `j` retry copies are all pending for the consumer already. */
  ghost predicate Passed(s: System, key: ConsumerKey, j: nat) {
    forall i :: 0 <= i < j && i < |s.topic.retry| ==> (key, s.topic.retry[i].id) in s.topic.pending
  }

  lemma {:induction false} ScanRetryHands(s0: System, s: System, key: ConsumerKey, j: nat, goal: nat, steady: SteadyClock)
    requires Handing(s0, s, key, steady) && |s.history.deliveries| <= goal && Passed(s, key, j) && j <= |s.topic.retry|
    ensures var s' := ScanRetry(s, key, j, goal, steady);
            && Handing(s0, s', key, steady) && |s'.history.deliveries| <= goal
            && (|s'.history.deliveries| < goal ==> Passed(s', key, |s'.topic.retry|))
            && s'.topic.log == s.topic.log && s'.topic.offsets == s.topic.offsets
            && (forall x :: x in s.topic.pending ==> x in s'.topic.pending)
            && s'.history.now == s.history.now
            && |s.history.deliveries| <= |s'.history.deliveries|
    decreases |s.topic.retry| - j
  {
    hide Handing;
    if j < |s.topic.retry| && |s.history.deliveries| < goal {
      var m := s.topic.retry[j];
      var s1 := DropRetry(s, j);
      if Expired(m, s.history.now) {
        SameHanding(s0, s, s1, key, steady);
        ScanRetryHands(s0, s1, key, j, goal, steady);
      } else if (key, m.id) in s.topic.pending {
        ScanRetryHands(s0, s, key, j + 1, goal, steady);
      } else {
        SameHanding(s0, s, s1, key, steady);
        HandOne(s0, s1, key, m, false, steady);
        ScanRetryHands(s0, Deliver(s1, key, m, false, steady), key, j, goal, steady);
      }
    }
  }

  /** The messages a pull returns. */
  function Pulled(s: System, s': System): seq<Delivery>
    requires |s.history.deliveries| <= |s'.history.deliveries|
  {
    s'.history.deliveries[|s.history.deliveries|..]
  }

  /**
   A pull returns at most `max` messages with distinct ids, none expired, none already pending for this consumer and all
   pending afterwards; pending copies of any consumer stay as they were.
   A pull that returns fewer leaves nothing that it could have returned.
   */
  lemma PullIsExclusiveAndExhaustive(s: System, key: ConsumerKey, max: nat, now: nat, steady: SteadyClock)
    ensures var s' := Pull(s, key, max, now, steady);
            && Handing(s, s', key, steady)
            && |Pulled(s, s')| <= max
            && s'.history.now == now
            && (|Pulled(s, s')| < max ==> Scanned(s', key, |s'.topic.log|) && Passed(s', key, |s'.topic.retry|))
  {
    var goal := |s.history.deliveries| + max;
    var s1 := OpenPull(s, key, now);
    DrainAllLeavesCopies(Tick(s, now));
    ScanLogHands(s, s1, key, 0, goal, steady);
    var s2 := PullLog(s, key, max, now, steady);
    ScanRetryHands(s, s2, key, 0, goal, steady);
    var s' := Pull(s, key, max, now, steady);
    if |Pulled(s, s')| < max {
      assert Scanned(s2, key, |s2.topic.log|);
    }
  }

  /** So a message pending for a consumer is not returned to it again. */
  lemma PendingNotPulledAgain(s: System, key: ConsumerKey, max: nat, now: nat, steady: SteadyClock, id: nat)
    requires (key, id) in s.topic.pending
    ensures var s' := Pull(s, key, max, now, steady);
            && |s.history.deliveries| <= |s'.history.deliveries|
            && (forall d :: d in Pulled(s, s') ==> d.msg.id != id)
            && (key, id) in s'.topic.pending && s'.topic.pending[(key, id)] == s.topic.pending[(key, id)]
  {
    PullIsExclusiveAndExhaustive(s, key, max, now, steady);
    var s' := Pull(s, key, max, now, steady);
    forall d | d in Pulled(s, s')
      ensures d.msg.id != id
    {
      var j :| 0 <= j < |Pulled(s, s')| && Pulled(s, s')[j] == d;
      assert Outstanding(s, s', key, |s.history.deliveries| + j, steady);
    }
  }

  /** What alone takes copy `x` away: its acknowledgement, a retry scan that finds it due, or its expiry. */
  ghost predicate Releases(s: System, a: Action, x: CopyKey, c: Settings)
    requires x in s.topic.pending
  {
    match a
    case Acking(y) => y == x
    case Retrying(_, _, steady) => steady >= s.topic.pending[x].pullTime + c.pendingTimeout
    case Expiring(now) => Expired(s.topic.pending[x].msg, now)
    case _ => false
  }

  lemma CopyStaysPending(s: System, a: Action, c: Settings, x: CopyKey)
    requires Enabled(s, a) && x in s.topic.pending && !Releases(s, a, x, c)
    ensures x in Do(s, a, c).topic.pending && Do(s, a, c).topic.pending[x] == s.topic.pending[x]
  {
    match a
    case Pulling(key, max, now, steady) => PullIsExclusiveAndExhaustive(s, key, max, now, steady);
    case Retrying(order, now, steady) => RetryScanLeavesCopy(Tick(s, now), order, steady, c, x);
    case _ =>
  }

  /** Action `i` makes delivery `a`. */
  ghost predicate Makes(run: seq<System>, i: nat, a: nat)
    requires i + 1 < |run|
  {
    |run[i].history.deliveries| <= a < |run[i + 1].history.deliveries|
  }

  lemma OthersDeliverNothing(s: System, a: Action, c: Settings)
    requires Enabled(s, a) && !a.Pulling?
    ensures Do(s, a, c).history.deliveries == s.history.deliveries
  {
    if a.Retrying? {
      RetryScanDeliversNothing(Tick(s, a.now), a.order, a.steady, c);
    }
  }

  lemma {:induction false} RetryScanDeliversNothing(s: System, order: seq<CopyKey>, steady: int, c: Settings)
    requires Visitable(order, s.topic.pending)
    ensures RetryScan(s, order, steady, c).history == s.history
    decreases |order|
  {
    if order != [] {
      RetryScanFirst(s, order, steady, c);
      RetryScanDeliversNothing(TimeOut(s, order[0], steady, c), order[1..], steady, c);
    }
  }

  /** A delivery is made by a pull of its consumer, and the copy is pending after it, since the reading for this delivery. */
  lemma DeliveryIsPending(run: seq<System>, actions: seq<Action>, c: Settings, i: nat, a: nat)
    requires IsRun(run, actions, c) && i < |actions| && Makes(run, i, a)
    ensures actions[i].Pulling? && run[i].history.deliveries <= run[i + 1].history.deliveries
    ensures var d := run[i + 1].history.deliveries[a];
            && actions[i].key == d.key && (d.key, d.msg.id) !in run[i].topic.pending
            && (d.key, d.msg.id) in run[i + 1].topic.pending
            && run[i + 1].topic.pending[(d.key, d.msg.id)] == Pending(d.msg, actions[i].clock(a))
  {
    hide Pull;
    if actions[i].Pulling? {
      PullIsExclusiveAndExhaustive(run[i], actions[i].key, actions[i].max, actions[i].now, actions[i].clock);
      assert Outstanding(run[i], run[i + 1], actions[i].key, a, actions[i].clock);
    } else {
      OthersDeliverNothing(run[i], actions[i], c);
    }
  }

  /** Deliveries are never forgotten. */
  lemma {:induction false} DeliveriesGrow(run: seq<System>, actions: seq<Action>, c: Settings, i: nat, j: nat)
    requires IsRun(run, actions, c) && i <= j < |run|
    ensures run[i].history.deliveries <= run[j].history.deliveries
  {
    hide Pull;
    if i < j {
      DeliveriesGrow(run, actions, c, i, j - 1);
      var a := actions[j - 1];
      if a.Pulling? {
        PullIsExclusiveAndExhaustive(run[j - 1], a.key, a.max, a.now, a.clock);
      } else {
        OthersDeliverNothing(run[j - 1], a, c);
      }
    }
  }

  /** While nothing releases it, a copy stays pending as it is. */
  lemma {:induction false} PendingUntilReleased(run: seq<System>, actions: seq<Action>, c: Settings, i: nat, j: nat, x: CopyKey)
    requires IsRun(run, actions, c) && i <= j < |run| && x in run[i].topic.pending
    requires forall k :: i <= k < j && x in run[k].topic.pending ==> !Releases(run[k], actions[k], x, c)
    ensures x in run[j].topic.pending && run[j].topic.pending[x] == run[i].topic.pending[x]
  {
    hide Pull, Releases;
    if i < j {
      PendingUntilReleased(run, actions, c, i, j - 1, x);
      CopyStaysPending(run[j - 1], actions[j - 1], c, x);
    }
  }

  /**
   In any run, between two deliveries of one message to one consumer or group there is its acknowledgement, a retry scan
   at which the pending timeout had passed since the first of them, or an expiry scan at which the message had expired.
  */
  lemma ExclusiveUntilReleased(run: seq<System>, actions: seq<Action>, c: Settings, i: nat, j: nat, a: nat, b: nat)
    requires IsRun(run, actions, c) && i < |actions| && j < |actions| && Makes(run, i, a) && Makes(run, j, b) && a < b
    requires var d, e := run[i + 1].history.deliveries[a], run[j + 1].history.deliveries[b];
             d.key == e.key && d.msg.id == e.msg.id
    ensures actions[i].Pulling?
    ensures var d := run[i + 1].history.deliveries[a];
            exists k :: i < k < j && (match actions[k]
                                      case Acking(x) => x == (d.key, d.msg.id)
                                      case Retrying(_, _, steady) => steady >= actions[i].clock(a) + c.pendingTimeout
                                      case Expiring(now) => Expired(d.msg, now)
                                      case _ => false)
  {
    hide Pull;
    var d := run[i + 1].history.deliveries[a];
    var x: CopyKey := (d.key, d.msg.id);
    DeliveryIsPending(run, actions, c, i, a);
    DeliveryIsPending(run, actions, c, j, b);
    if j < i {
      DeliveriesGrow(run, actions, c, j + 1, i);
    } else if i == j {
      PullIsExclusiveAndExhaustive(run[i], actions[i].key, actions[i].max, actions[i].now, actions[i].clock);
    } else {
      var k := FirstRelease(run, actions, c, i + 1, j, x);
      PendingUntilReleased(run, actions, c, i + 1, k, x);
      assert Releases(run[k], actions[k], x, c);
    }
  }

  /** A copy that is gone was released by some first action. */
  lemma {:induction false} FirstRelease(run: seq<System>, actions: seq<Action>, c: Settings, i: nat, j: nat, x: CopyKey) returns (k: nat)
    requires IsRun(run, actions, c) && i <= j < |run| && x in run[i].topic.pending && x !in run[j].topic.pending
    ensures i <= k < j && x in run[k].topic.pending && Releases(run[k], actions[k], x, c)
    ensures forall n :: i <= n < k && x in run[n].topic.pending ==> !Releases(run[n], actions[n], x, c)
    decreases j - i
  {
    hide Pull, Releases;
    if Releases(run[i], actions[i], x, c) {
      k := i;
    } else {
      CopyStaysPending(run[i], actions[i], c, x);
      k := FirstRelease(run, actions, c, i + 1, j, x);
    }
  }

  lemma {:induction false} ScanLogRaisesOffsets(s: System, key: ConsumerKey, j: nat, goal: nat, steady: SteadyClock, k: ConsumerKey)
    ensures Offset(ScanLog(s, key, j, goal, steady).topic, k) >= Offset(s.topic, k)
    decreases |s.topic.log| - j
  {
    if j < |s.topic.log| && |s.history.deliveries| < goal {
      ScanLogRaisesOffsets(VisitLog(s, key, s.topic.log[j], steady), key, j + 1, goal, steady, k);
    }
  }

  lemma {:induction false} RetryScanLeavesOffsets(s: System, order: seq<CopyKey>, steady: int, c: Settings)
    requires Visitable(order, s.topic.pending)
    ensures RetryScan(s, order, steady, c).topic.offsets == s.topic.offsets
    decreases |order|
  {
    if order != [] {
      TimeOutLeavesOthers(s, order, steady, c);
      RetryScanLeavesOffsets(TimeOut(s, order[0], steady, c), order[1..], steady, c);
    }
  }

  lemma PullRaisesOffsets(s: System, key: ConsumerKey, max: nat, now: nat, steady: SteadyClock, k: ConsumerKey)
    ensures Offset(Pull(s, key, max, now, steady).topic, k) >= Offset(s.topic, k)
  {
    hide ScanLog, ScanRetry, DrainAll;
    var goal := |s.history.deliveries| + max;
    DrainAllLeavesCopies(Tick(s, now));
    ScanLogRaisesOffsets(OpenPull(s, key, now), key, 0, goal, steady, k);
    ScanRetryLeavesOffsets(PullLog(s, key, max, now, steady), key, 0, goal, steady);
  }

  lemma ActionRaisesOffsets(s: System, a: Action, c: Settings, k: ConsumerKey)
    requires Enabled(s, a)
    ensures Offset(Do(s, a, c).topic, k) >= Offset(s.topic, k)
  {
    hide Pull, RetryScan, Visitable;
    match a
    case Pulling(key, max, now, steady) => PullRaisesOffsets(s, key, max, now, steady, k);
    case Retrying(order, now, steady) => RetryScanLeavesOffsets(Tick(s, now), order, steady, c);
    case _ =>
  }

  lemma {:induction false} ScanRetryLeavesOffsets(s: System, key: ConsumerKey, j: nat, goal: nat, steady: SteadyClock)
    ensures ScanRetry(s, key, j, goal, steady).topic.offsets == s.topic.offsets
    decreases |s.topic.retry| - j
  {
    if j < |s.topic.retry| && |s.history.deliveries| < goal {
      var m := s.topic.retry[j];
      if Expired(m, s.history.now) {
        ScanRetryLeavesOffsets(DropRetry(s, j), key, j, goal, steady);
      } else if (key, m.id) in s.topic.pending {
        ScanRetryLeavesOffsets(s, key, j + 1, goal, steady);
      } else {
        ScanRetryLeavesOffsets(Deliver(DropRetry(s, j), key, m, false, steady), key, j, goal, steady);
      }
    }
  }

  lemma {:induction false} ScanLogLeavesLog(s: System, key: ConsumerKey, j: nat, goal: nat, steady: SteadyClock)
    ensures var s' := ScanLog(s, key, j, goal, steady);
            s'.topic.log == s.topic.log && s'.topic.ring == s.topic.ring
    decreases |s.topic.log| - j
  {
    if j < |s.topic.log| && |s.history.deliveries| < goal {
      ScanLogLeavesLog(VisitLog(s, key, s.topic.log[j], steady), key, j + 1, goal, steady);
    }
  }

  lemma {:induction false} ScanRetryLeavesLog(s: System, key: ConsumerKey, j: nat, goal: nat, steady: SteadyClock)
    ensures var s' := ScanRetry(s, key, j, goal, steady);
            s'.topic.log == s.topic.log && s'.topic.ring == s.topic.ring
    decreases |s.topic.retry| - j
  {
    if j < |s.topic.retry| && |s.history.deliveries| < goal {
      var m := s.topic.retry[j];
      if Expired(m, s.history.now) {
        ScanRetryLeavesLog(DropRetry(s, j), key, j, goal, steady);
      } else if (key, m.id) in s.topic.pending {
        ScanRetryLeavesLog(s, key, j + 1, goal, steady);
      } else {
        ScanRetryLeavesLog(Deliver(DropRetry(s, j), key, m, false, steady), key, j, goal, steady);
      }
    }
  }

  /** Draining stops at nothing but an oversized record. */
  lemma {:induction false} DrainAllEmpties(s: System)
    ensures var ring := DrainAll(s).topic.ring;
            && (ring == [] || RECORD_OVERHEAD + |ring[0].payload| > MAX_PAYLOAD_SIZE)
            && (forall m :: m in ring ==> m in s.topic.ring)
    decreases |s.topic.ring|
  {
    if s.topic.ring != [] && RECORD_OVERHEAD + |s.topic.ring[0].payload| <= MAX_PAYLOAD_SIZE {
      DrainAllEmpties(DrainOne(s));
    }
  }

  /** So a pull leaves nothing in the ring, unless an oversized record is in the way. */
  lemma PullEmptiesRing(s: System, key: ConsumerKey, max: nat, now: nat, steady: SteadyClock)
    ensures var ring := Pull(s, key, max, now, steady).topic.ring;
            && (ring == [] || RECORD_OVERHEAD + |ring[0].payload| > MAX_PAYLOAD_SIZE)
            && (forall m :: m in ring ==> m in s.topic.ring)
  {
    hide ScanLog, ScanRetry, DrainAll;
    var goal := |s.history.deliveries| + max;
    DrainAllEmpties(Tick(s, now));
    ScanLogLeavesLog(OpenPull(s, key, now), key, 0, goal, steady);
    ScanRetryLeavesLog(PullLog(s, key, max, now, steady), key, 0, goal, steady);
  }

  /** The deliveries are messages of the queue, in its order. */
  ghost predicate Follows(ds: seq<Delivery>, q: seq<Message>)
    decreases |q|
  {
    ds == [] || (q != [] && ((ds[0].msg == q[0] && Follows(ds[1..], q[1..])) || Follows(ds, q[1..])))
  }

  lemma {:induction false} ScanLogInOrder(s: System, key: ConsumerKey, j: nat, goal: nat, steady: SteadyClock)
    ensures var s' := ScanLog(s, key, j, goal, steady);
            && s.history.deliveries <= s'.history.deliveries
            && (forall d :: d in Pulled(s, s') ==> d.fromLog)
            && Follows(Pulled(s, s'), s.topic.log[if j <= |s.topic.log| then j else |s.topic.log|..])
    decreases |s.topic.log| - j
  {
    var s' := ScanLog(s, key, j, goal, steady);
    if j < |s.topic.log| && |s.history.deliveries| < goal {
      var m := s.topic.log[j];
      var s1 := VisitLog(s, key, m, steady);
      ScanLogInOrder(s1, key, j + 1, goal, steady);
      VisitAddsOne(s, key, m, steady);
      JoinPulled(s, s1, s', m, s.topic.log[j..]);
    }
  }

  lemma VisitAddsOne(s: System, key: ConsumerKey, m: Message, steady: SteadyClock)
    ensures var s1 := VisitLog(s, key, m, steady);
            s1.history.deliveries == s.history.deliveries || s1.history.deliveries == s.history.deliveries + [Delivery(key, m, true)]
  {
  }

  /** At most one delivery, of the first message, in front of those of the rest. */
  lemma {:induction false} JoinPulled(s: System, s1: System, s': System, m: Message, q: seq<Message>)
    requires q != [] && q[0] == m && s.history.deliveries <= s1.history.deliveries <= s'.history.deliveries
    requires |Pulled(s, s1)| <= 1 && (Pulled(s, s1) != [] ==> Pulled(s, s1)[0].msg == m)
    requires Follows(Pulled(s1, s'), q[1..])
    ensures Follows(Pulled(s, s'), q) && Pulled(s, s') == Pulled(s, s1) + Pulled(s1, s')
  {
    if Pulled(s, s1) != [] {
      assert Pulled(s, s')[1..] == Pulled(s1, s');
    } else {
      assert Pulled(s, s') == Pulled(s1, s');
    }
  }

  lemma {:induction false} ScanRetryInOrder(s: System, key: ConsumerKey, j: nat, goal: nat, steady: SteadyClock)
    ensures var s' := ScanRetry(s, key, j, goal, steady);
            && s.history.deliveries <= s'.history.deliveries
            && (forall d :: d in Pulled(s, s') ==> !d.fromLog)
            && Follows(Pulled(s, s'), s.topic.retry[if j <= |s.topic.retry| then j else |s.topic.retry|..])
    decreases |s.topic.retry| - j
  {
    var s' := ScanRetry(s, key, j, goal, steady);
    if j < |s.topic.retry| && |s.history.deliveries| < goal {
      var m := s.topic.retry[j];
      assert DropRetry(s, j).topic.retry[j..] == s.topic.retry[j..][1..];
      if Expired(m, s.history.now) {
        ScanRetryInOrder(DropRetry(s, j), key, j, goal, steady);
        JoinPulled(s, DropRetry(s, j), s', m, s.topic.retry[j..]);
      } else if (key, m.id) in s.topic.pending {
        ScanRetryInOrder(s, key, j + 1, goal, steady);
        JoinPulled(s, s, s', m, s.topic.retry[j..]);
      } else {
        var s1 := Deliver(DropRetry(s, j), key, m, false, steady);
        ScanRetryInOrder(s1, key, j, goal, steady);
        JoinPulled(s, s1, s', m, s.topic.retry[j..]);
      }
    }
  }

  /** A pull returns messages of the log first, and then retries, each in the order of its queue. */
  lemma PullInOrder(s: System, key: ConsumerKey, max: nat, now: nat, steady: SteadyClock) returns (n: nat)
    ensures var s' := Pull(s, key, max, now, steady);
            && s.history.deliveries <= s'.history.deliveries && n <= |Pulled(s, s')|
            && (forall d :: d in Pulled(s, s')[..n] ==> d.fromLog)
            && (forall d :: d in Pulled(s, s')[n..] ==> !d.fromLog)
            && Follows(Pulled(s, s')[..n], DrainAll(Tick(s, now)).topic.log)
            && Follows(Pulled(s, s')[n..], s.topic.retry)
  {
    hide ScanLog, ScanRetry, DrainAll, Follows;
    var goal := |s.history.deliveries| + max;
    var s1, s2, s' := OpenPull(s, key, now), PullLog(s, key, max, now, steady), Pull(s, key, max, now, steady);
    DrainAllLeavesCopies(Tick(s, now));
    ScanLogInOrder(s1, key, 0, goal, steady);
    ScanLogHands(s1, s1, key, 0, goal, steady);
    ScanRetryInOrder(s2, key, 0, goal, steady);
    n := |Pulled(s, s2)|;
    assert s1.topic.log[0..] == s1.topic.log && s2.topic.retry[0..] == s.topic.retry;
    assert Pulled(s, s')[..n] == Pulled(s1, s2) && Pulled(s, s')[n..] == Pulled(s2, s');
  }
}
