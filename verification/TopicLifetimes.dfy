/** What becomes of a message, told by its publish: what is lost had a time to live, and a clock reading past its end. */
module TopicLifetimes {
  import opened Bytes
  import opened TopicState
  import opened MessageSeqs
  import opened TopicInvariants
  import opened TopicRuns
  import opened TopicPull
  import opened TopicTheorems
  import opened TopicScans

  /** Ids count the publishes; this is the one that was given `id`. */
  ghost predicate GaveId(actions: seq<Action>, p: nat, id: nat) {
    p < |actions| && actions[p].Publishing? && id == 1 + Publishes(actions[..p])
  }

  /** The time to live that the message was published with is over; without one it never is. */
  predicate Over(publish: Action, now: nat)
    requires publish.Publishing?
  {
    publish.ttl > 0 && now > publish.now + publish.ttl
  }

  /** A clock reading. */
  predicate ReadsClock(a: Action) {
    a.Pulling? || a.Retrying? || a.Expiring?
  }

  /** Among the actions up to state `i` the clock was read after the time to live of publish `p` was over. */
  ghost predicate ReadWhenOver(actions: seq<Action>, i: nat, p: nat)
    requires i <= |actions| && p < |actions| && actions[p].Publishing?
  {
    exists k :: 0 <= k < i && ReadsClock(actions[k]) && Over(actions[p], actions[k].now)
  }

  lemma {:induction false} PublishesGrow(actions: seq<Action>, p: nat, q: nat)
    requires p < q <= |actions| && actions[p].Publishing?
    ensures Publishes(actions[..p]) < Publishes(actions[..q])
  {
    assert actions[..q][..q - 1] == actions[..q - 1];
    if p < q - 1 {
      PublishesGrow(actions, p, q - 1);
    }
  }

  /** No two publishes are given the same id. */
  lemma GaveIdOnce(actions: seq<Action>, p: nat, q: nat, id: nat)
    requires GaveId(actions, p, id) && GaveId(actions, q, id)
    ensures p == q
  {
    if p < q {
      PublishesGrow(actions, p, q);
    } else if q < p {
      PublishesGrow(actions, q, p);
    }
  }

  lemma {:induction false} AcceptedIsPublished(actions: seq<Action>, i: nat, m: Message) returns (p: nat)
    requires i <= |actions| && m in Accepted(actions[..i])
    ensures p < i && GaveId(actions, p, m.id) && actions[p].taken
    ensures m.payload == actions[p].payload && m.timestamp == actions[p].timestamp && m.retryCount == 0
    ensures forall now :: Expired(m, now) <==> Over(actions[p], now)
  {
    assert i > 0 && actions[..i][..i - 1] == actions[..i - 1];
    if m in Accepted(actions[..i - 1]) {
      p := AcceptedIsPublished(actions, i - 1, m);
    } else {
      p := i - 1;
    }
  }

  lemma {:induction false} PublishedIsAccepted(actions: seq<Action>, i: nat, p: nat) returns (m: Message)
    requires p < i <= |actions| && actions[p].Publishing? && actions[p].taken
    ensures m in Accepted(actions[..i]) && GaveId(actions, p, m.id) && m.payload == actions[p].payload
    ensures forall now :: Expired(m, now) <==> Over(actions[p], now)
  {
    assert actions[..i][..i - 1] == actions[..i - 1];
    if p < i - 1 {
      m := PublishedIsAccepted(actions, i - 1, p);
    } else {
      var accepted := Accepted(actions[..i]);
      m := accepted[|accepted| - 1];
    }
  }

  /** The clock stands at the latest reading. */
  lemma {:induction false} NowWasRead(run: seq<System>, actions: seq<Action>, c: Settings, i: nat)
    requires IsRun(run, actions, c) && i < |run|
    ensures run[i].history.now == 0 || exists k :: 0 <= k < i && ReadsClock(actions[k]) && actions[k].now == run[i].history.now
  {
    hide Pull, RetryScan;
    if i > 0 {
      NowWasRead(run, actions, c, i - 1);
      NowIsReading(run[i - 1], actions[i - 1], c);
    }
  }

  lemma NowIsReading(s: System, a: Action, c: Settings)
    requires Enabled(s, a)
    ensures Do(s, a, c).history.now == if ReadsClock(a) then a.now else s.history.now
  {
    hide Pull, RetryScan;
    match a
    case Pulling(key, max, now, steady) => PullIsExclusiveAndExhaustive(s, key, max, now, steady);
    case Retrying(order, now, steady) => ScanLeavesLog(Tick(s, now), order, steady, c);
    case _ =>
  }

  /** A copy of a stored message has the lifetime of its publish. */
  lemma CopyLifetime(run: seq<System>, actions: seq<Action>, c: Settings, i: nat, m: Message, p: nat)
    requires IsRun(run, actions, c) && i < |run| && CopyOf(m, run[i].history.stored, c.maxRetry) && GaveId(actions, p, m.id)
    ensures p < i && actions[p].taken && m.payload == actions[p].payload && m.timestamp == actions[p].timestamp
    ensures forall now :: Expired(m, now) <==> Over(actions[p], now)
  {
    hide IsRun;
    RunLengths(run, actions, c);
    StoredIsAccepted(run, actions, c, i);
    var q := AcceptedIsPublished(actions, i, m.(retryCount := 0));
    GaveIdOnce(actions, p, q, m.id);
    assert forall now :: Expired(m, now) <==> Expired(m.(retryCount := 0), now);
  }

  lemma RunLengths(run: seq<System>, actions: seq<Action>, c: Settings)
    requires IsRun(run, actions, c)
    ensures |run| == |actions| + 1
  {
  }

  /**
   Nothing is delivered after its time: whatever a pull hands out, from the log or as a retry, is the payload of an accepted
   publish, and the pull's clock reading is not past the end of the time to live, if it was given one.
  */
  lemma DeliveredInTime(run: seq<System>, actions: seq<Action>, c: Settings, i: nat, a: nat, p: nat)
    requires IsRun(run, actions, c) && i < |actions| && Makes(run, i, a)
    requires GaveId(actions, p, run[i + 1].history.deliveries[a].msg.id)
    ensures actions[i].Pulling? && p <= i && actions[p].taken
    ensures actions[p].ttl > 0 ==> actions[i].now <= actions[p].now + actions[p].ttl
    ensures var m := run[i + 1].history.deliveries[a].msg;
            m.payload == actions[p].payload && m.timestamp == actions[p].timestamp
  {
    hide Inv, IsRun, Pull;
    RunLengths(run, actions, c);
    DeliveryIsPending(run, actions, c, i, a);
    RunKeepsInv(run, actions, c, i + 1);
    InvParts(run[i + 1], c.maxRetry);
    var m := run[i + 1].history.deliveries[a].msg;
    CopyLifetime(run, actions, c, i + 1, m, p);
    FreshWhenDelivered(run, actions, c, i, a);
  }

  lemma FreshWhenDelivered(run: seq<System>, actions: seq<Action>, c: Settings, i: nat, a: nat)
    requires IsRun(run, actions, c) && i < |actions| && Makes(run, i, a) && actions[i].Pulling?
    ensures !Expired(run[i + 1].history.deliveries[a].msg, actions[i].now)
  {
    hide Pull;
    PullIsExclusiveAndExhaustive(run[i], actions[i].key, actions[i].max, actions[i].now, actions[i].clock);
    assert Outstanding(run[i], run[i + 1], actions[i].key, a, actions[i].clock);
  }

  ghost predicate HandedOut(ds: seq<Delivery>, key: ConsumerKey, id: nat) {
    exists d :: d in ds && d.key == key && d.msg.id == id
  }

  /**
   Nothing is lost before its time: as long as the clock has not been read after the end of its time to live, an accepted
   message is in log or ring, every consumer whose offset has passed it was handed it, and once delivered it has a copy
   until somebody acknowledges it.
  */
  lemma KeptInTime(run: seq<System>, actions: seq<Action>, c: Settings, i: nat, p: nat, id: nat)
    requires IsRun(run, actions, c) && i < |run| && p < i && GaveId(actions, p, id) && actions[p].taken
    requires !ReadWhenOver(actions, i, p)
    ensures exists m :: m in run[i].topic.log + run[i].topic.ring && m.id == id && m.payload == actions[p].payload
    ensures forall key :: id < Offset(run[i].topic, key) ==> HandedOut(run[i].history.deliveries, key, id)
    ensures forall d :: d in run[i].history.deliveries && d.msg.id == id ==>
      AckedBySome(run[i].history.acked, id) || HasCopy(run[i], id)
  {
    hide Inv, IsRun;
    RunLengths(run, actions, c);
    var m := PublishedIsAccepted(actions, i, p);
    StoredIsAccepted(run, actions, c, i);
    NowWasRead(run, actions, c, i);
    assert !Expired(m, run[i].history.now);
    RunKeepsInv(run, actions, c, i);
    InvParts(run[i], c.maxRetry);
    StoredStays(run[i], m);
    forall key | id < Offset(run[i].topic, key)
      ensures HandedOut(run[i].history.deliveries, key, id)
    {
      assert (key, m.id) in HandedTo(run[i].history.deliveries);
    }
    forall d | d in run[i].history.deliveries && d.msg.id == id
      ensures AckedBySome(run[i].history.acked, id) || HasCopy(run[i], id)
    {
      assert (d.key, d.msg.id) in HandedTo(run[i].history.deliveries);
      assert Survives(run[i], m);
    }
  }

  lemma StoredStays(s: System, m: Message)
    requires LogInv(s) && m in s.history.stored && !Expired(m, s.history.now)
    ensures m in s.topic.log + s.topic.ring
  {
    LogFacts(s);
    var j :| 0 <= j < |s.history.stored| && s.history.stored[j] == m;
    assert StoredInv(s.history.stored[j], s);
  }

  /** A message published without a time to live is never lost, whatever the clock reads. */
  lemma KeptForEver(run: seq<System>, actions: seq<Action>, c: Settings, i: nat, p: nat, id: nat)
    requires IsRun(run, actions, c) && i < |run| && p < i && GaveId(actions, p, id) && actions[p].taken && actions[p].ttl == 0
    ensures exists m :: m in run[i].topic.log + run[i].topic.ring && m.id == id && m.payload == actions[p].payload
    ensures forall key :: id < Offset(run[i].topic, key) ==> HandedOut(run[i].history.deliveries, key, id)
    ensures forall d :: d in run[i].history.deliveries && d.msg.id == id ==>
      AckedBySome(run[i].history.acked, id) || HasCopy(run[i], id)
  {
    hide IsRun;
    RunLengths(run, actions, c);
    KeptInTime(run, actions, c, i, p, id);
  }

  /** Every record is small enough to be taken out of the ring. */
  ghost predicate AllFit(actions: seq<Action>) {
    forall k :: 0 <= k < |actions| && actions[k].Publishing? ==> RECORD_OVERHEAD + |actions[k].payload| <= MAX_PAYLOAD_SIZE
  }

  lemma StoredFits(run: seq<System>, actions: seq<Action>, c: Settings, i: nat, m: Message)
    requires IsRun(run, actions, c) && i < |run| && AllFit(actions) && m in run[i].history.stored
    ensures RECORD_OVERHEAD + |m.payload| <= MAX_PAYLOAD_SIZE
  {
    hide IsRun;
    RunLengths(run, actions, c);
    StoredIsAccepted(run, actions, c, i);
    var p := AcceptedIsPublished(actions, i, m);
  }

  /** After a pull the ring is empty, when all records are small enough. */
  lemma PullDrains(run: seq<System>, actions: seq<Action>, c: Settings, i: nat)
    requires IsRun(run, actions, c) && i < |actions| && actions[i].Pulling? && AllFit(actions)
    ensures run[i + 1].topic.ring == []
  {
    hide Inv, Pull, AllFit;
    PullEmptiesRing(run[i], actions[i].key, actions[i].max, actions[i].now, actions[i].clock);
    RunKeepsInv(run, actions, c, i + 1);
    InvParts(run[i + 1], c.maxRetry);
    LogFacts(run[i + 1]);
    if run[i + 1].topic.ring != [] {
      StoredFits(run, actions, c, i + 1, run[i + 1].topic.ring[0]);
    }
  }

  /**
   A pull that returns fewer messages than it may has missed nothing: its consumer has by then been handed every message
   accepted before whose time to live is not over at this reading of the clock, unless the message is stuck in the ring
   with an oversized record in front.
  */
  lemma ShortPullMissesNothing(run: seq<System>, actions: seq<Action>, c: Settings, i: nat, p: nat, id: nat)
    requires IsRun(run, actions, c) && i < |actions| && actions[i].Pulling?
    requires |run[i + 1].history.deliveries| < |run[i].history.deliveries| + actions[i].max
    requires p < i && GaveId(actions, p, id) && actions[p].taken && !Over(actions[p], actions[i].now)
    ensures var ring := run[i + 1].topic.ring;
            || HandedOut(run[i + 1].history.deliveries, actions[i].key, id)
            || (Holds(ring, id) && RECORD_OVERHEAD + |ring[0].payload| > MAX_PAYLOAD_SIZE)
  {
    hide Inv, Pull, HasCopy, OffsetsInv, SurvivalInv, Handing, Passed;
    var s', key := run[i + 1], actions[i].key;
    PullEmptiesRing(run[i], key, actions[i].max, actions[i].now, actions[i].clock);
    PullIsExclusiveAndExhaustive(run[i], key, actions[i].max, actions[i].now, actions[i].clock);
    var m := PublishedIsAccepted(actions, i + 1, p);
    StoredIsAccepted(run, actions, c, i + 1);
    GaveIdSame(actions, p, id, m.id);
    RunKeepsInv(run, actions, c, i + 1);
    InvParts(s', c.maxRetry);
    StoredStays(s', m);
    if m in s'.topic.log {
      var j :| 0 <= j < |s'.topic.log| && s'.topic.log[j] == m;
      assert m.id < Offset(s'.topic, key) || (key, m.id) in s'.topic.pending;
      assert (key, m.id) in HandedTo(s'.history.deliveries);
    }
  }

  /** So when all records are small enough to be taken out of the ring, it has missed nothing at all. */
  lemma ShortPullIsComplete(run: seq<System>, actions: seq<Action>, c: Settings, i: nat, p: nat, id: nat)
    requires IsRun(run, actions, c) && i < |actions| && actions[i].Pulling? && AllFit(actions)
    requires |run[i + 1].history.deliveries| < |run[i].history.deliveries| + actions[i].max
    requires p < i && GaveId(actions, p, id) && actions[p].taken && !Over(actions[p], actions[i].now)
    ensures HandedOut(run[i + 1].history.deliveries, actions[i].key, id)
  {
    hide IsRun, AllFit, HandedOut;
    RunLengths(run, actions, c);
    PullDrains(run, actions, c, i);
    ShortPullMissesNothing(run, actions, c, i, p, id);
  }

  lemma GaveIdSame(actions: seq<Action>, p: nat, a: nat, b: nat)
    requires GaveId(actions, p, a) && GaveId(actions, p, b)
    ensures a == b
  {
  }

  /** An expiry scan purges exactly the messages whose time to live is over, wherever they are; the ring it leaves alone. */
  lemma ExpiryPurgesExactly(run: seq<System>, actions: seq<Action>, c: Settings, i: nat, p: nat, id: nat)
    requires IsRun(run, actions, c) && i < |actions| && actions[i].Expiring? && GaveId(actions, p, id)
    ensures var t, t', over := run[i].topic, run[i + 1].topic, Over(actions[p], actions[i].now);
            && (Holds(t'.log, id) <==> Holds(t.log, id) && !over)
            && (Holds(t'.retry, id) <==> Holds(t.retry, id) && !over)
            && (forall key :: (key, id) in t'.pending <==> (key, id) in t.pending && !over)
            && t'.ring == t.ring && t'.dlq == t.dlq
  {
    hide Inv, ExpiryScan;
    var s, now := run[i], actions[i].now;
    ExpiryScanExactly(s, now);
    RunKeepsInv(run, actions, c, i);
    InvParts(s, c.maxRetry);
    forall m | m in s.topic.log && m.id == id
      ensures Expired(m, now) <==> Over(actions[p], now)
    {
      LogMessageIsCopy(s, m, c.maxRetry);
      CopyLifetime(run, actions, c, i, m, p);
    }
    SameHolds(s.topic.log, run[i + 1].topic.log, id, now, Over(actions[p], now));
    forall m | m in s.topic.retry && m.id == id
      ensures Expired(m, now) <==> Over(actions[p], now)
    {
      CopyLifetime(run, actions, c, i, m, p);
    }
    SameHolds(s.topic.retry, run[i + 1].topic.retry, id, now, Over(actions[p], now));
    forall key | (key, id) in s.topic.pending
      ensures Expired(s.topic.pending[(key, id)].msg, now) <==> Over(actions[p], now)
    {
      CopyLifetime(run, actions, c, i, s.topic.pending[(key, id)].msg, p);
    }
  }

  lemma SameHolds(q: seq<Message>, q': seq<Message>, id: nat, now: nat, over: bool)
    requires forall m :: m in q' <==> m in q && !Expired(m, now)
    requires forall m :: m in q && m.id == id ==> (Expired(m, now) <==> over)
    ensures Holds(q', id) <==> Holds(q, id) && !over
  {
    if Holds(q', id) {
      var j :| 0 <= j < |q'| && q'[j].id == id;
      assert q'[j] in q;
    }
    if Holds(q, id) && !over {
      var j :| 0 <= j < |q| && q[j].id == id;
      assert q[j] in q';
    }
  }

  /**
   A retry scan, told by the publish of a copy that is due: it is pending no longer; if its time to live is not over, it is
   a new dead letter when it has no retries left, and the retry queue holds its message otherwise.
  */
  lemma DueCopyMovesOn(run: seq<System>, actions: seq<Action>, c: Settings, i: nat, x: CopyKey, p: nat)
    requires IsRun(run, actions, c) && i < |actions| && actions[i].Retrying? && GaveId(actions, p, x.1)
    requires x in run[i].topic.pending && actions[i].steady >= run[i].topic.pending[x].pullTime + c.pendingTimeout
    ensures var t, t', m := run[i].topic, run[i + 1].topic, run[i].topic.pending[x].msg;
            && x !in t'.pending && t.dlq <= t'.dlq
            && (!Over(actions[p], actions[i].now) && m.retryCount == c.maxRetry ==> m in t'.dlq[|t.dlq|..])
            && (!Over(actions[p], actions[i].now) && m.retryCount < c.maxRetry ==> Holds(t'.retry, x.1))
  {
    hide Inv, RetryScan, LogInv, OffsetsInv, GapsInv, SurvivalInv;
    var s, a := run[i], actions[i];
    RunKeepsInv(run, actions, c, i);
    InvParts(s, c.maxRetry);
    CopyLifetime(run, actions, c, i, s.topic.pending[x].msg, p);
    RetryScanExactly(Tick(s, a.now), a.order, a.steady, c);
    assert x in a.order;
    if !Over(actions[p], a.now) && s.topic.pending[x].msg.retryCount < c.maxRetry {
      assert RetriedId(Tick(s, a.now), a.order, x.1, a.steady, c);
    }
  }

  /** Dead letters come out in the order in which they went in, and none gets lost. */
  lemma {:induction false} DeadLettersInOrder(run: seq<System>, actions: seq<Action>, c: Settings, i: nat, j: nat)
    requires IsRun(run, actions, c) && i <= j < |run|
    ensures run[i].history.dlqPulled + run[i].topic.dlq <= run[j].history.dlqPulled + run[j].topic.dlq
    decreases j
  {
    hide Pull, RetryScan, ExpiryScan, Inv;
    if i < j {
      DeadLettersInOrder(run, actions, c, i, j - 1);
      RunKeepsInv(run, actions, c, j - 1);
      DeadStayInOrder(run[j - 1], actions[j - 1], c);
    }
  }

  lemma DeadStayInOrder(s: System, a: Action, c: Settings)
    requires Inv(s, c.maxRetry) && Enabled(s, a)
    ensures var s' := Do(s, a, c);
            s.history.dlqPulled + s.topic.dlq <= s'.history.dlqPulled + s'.topic.dlq
  {
    hide Inv, Pull, RetryScan;
    match a
    case Pulling(key, max, now, steady) => PullLeavesDead(s, key, max, now, steady);
    case Retrying(order, now, steady) =>
      InvParts(s, c.maxRetry);
      RetryScanExactly(Tick(s, now), order, steady, c);
    case _ =>
  }

  lemma PullLeavesDead(s: System, key: ConsumerKey, max: nat, now: nat, steady: SteadyClock)
    ensures var s' := Pull(s, key, max, now, steady);
            s'.topic.dlq == s.topic.dlq && s'.history.dlqPulled == s.history.dlqPulled
  {
    hide ScanLog, ScanRetry, DrainAll;
    var goal := |s.history.deliveries| + max;
    DrainAllLeavesCopies(Tick(s, now));
    ScanLogLeavesDead(OpenPull(s, key, now), key, 0, goal, steady);
    ScanRetryLeavesDead(PullLog(s, key, max, now, steady), key, 0, goal, steady);
  }

  lemma {:induction false} ScanLogLeavesDead(s: System, key: ConsumerKey, j: nat, goal: nat, steady: SteadyClock)
    ensures var s' := ScanLog(s, key, j, goal, steady);
            s'.topic.dlq == s.topic.dlq && s'.history.dlqPulled == s.history.dlqPulled
    decreases |s.topic.log| - j
  {
    if j < |s.topic.log| && |s.history.deliveries| < goal {
      ScanLogLeavesDead(VisitLog(s, key, s.topic.log[j], steady), key, j + 1, goal, steady);
    }
  }

  lemma {:induction false} ScanRetryLeavesDead(s: System, key: ConsumerKey, j: nat, goal: nat, steady: SteadyClock)
    ensures var s' := ScanRetry(s, key, j, goal, steady);
            s'.topic.dlq == s.topic.dlq && s'.history.dlqPulled == s.history.dlqPulled
    decreases |s.topic.retry| - j
  {
    if j < |s.topic.retry| && |s.history.deliveries| < goal {
      var m := s.topic.retry[j];
      if Expired(m, s.history.now) {
        ScanRetryLeavesDead(DropRetry(s, j), key, j, goal, steady);
      } else if (key, m.id) in s.topic.pending {
        ScanRetryLeavesDead(s, key, j + 1, goal, steady);
      } else {
        ScanRetryLeavesDead(Deliver(DropRetry(s, j), key, m, false, steady), key, j, goal, steady);
      }
    }
  }
}
