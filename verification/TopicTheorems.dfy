/** What holds at any point of any run of a topic, whatever its publishers, consumers and background scans do. */
module TopicTheorems {
  import opened TopicState
  import opened MessageSeqs
  import opened TopicInvariants
  import opened TopicRuns
  import opened TopicPull

  /** How many publishes there were, successful or not. */
  function Publishes(actions: seq<Action>): nat {
    if actions == [] then 0
    else Publishes(actions[..|actions| - 1]) + if actions[|actions| - 1].Publishing? then 1 else 0
  }

  /** The messages of the successful publishes; an id counts the publishes up to it. */
  function Accepted(actions: seq<Action>): seq<Message> {
    if actions == [] then []
    else
      var front, last := actions[..|actions| - 1], actions[|actions| - 1];
      if last.Publishing? && last.taken then
        Accepted(front) + [Message(1 + Publishes(front), last.payload, last.timestamp, 0, if last.ttl > 0 then last.now + last.ttl else 0)]
      else Accepted(front)
  }

  lemma {:induction false} ScanLogStoresNothing(s: System, key: ConsumerKey, j: nat, goal: nat, steady: SteadyClock)
    ensures var s' := ScanLog(s, key, j, goal, steady);
            s'.history.stored == s.history.stored && s'.topic.nextId == s.topic.nextId
    decreases |s.topic.log| - j
  {
    if j < |s.topic.log| && |s.history.deliveries| < goal {
      ScanLogStoresNothing(VisitLog(s, key, s.topic.log[j], steady), key, j + 1, goal, steady);
    }
  }

  lemma {:induction false} ScanRetryStoresNothing(s: System, key: ConsumerKey, j: nat, goal: nat, steady: SteadyClock)
    ensures var s' := ScanRetry(s, key, j, goal, steady);
            s'.history.stored == s.history.stored && s'.topic.nextId == s.topic.nextId
    decreases |s.topic.retry| - j
  {
    if j < |s.topic.retry| && |s.history.deliveries| < goal {
      var m := s.topic.retry[j];
      if Expired(m, s.history.now) {
        ScanRetryStoresNothing(DropRetry(s, j), key, j, goal, steady);
      } else if (key, m.id) in s.topic.pending {
        ScanRetryStoresNothing(s, key, j + 1, goal, steady);
      } else {
        ScanRetryStoresNothing(Deliver(DropRetry(s, j), key, m, false, steady), key, j, goal, steady);
      }
    }
  }

  lemma {:induction false} RetryScanStoresNothing(s: System, order: seq<CopyKey>, steady: int, c: Settings)
    requires Visitable(order, s.topic.pending)
    ensures var s' := RetryScan(s, order, steady, c);
            s'.history.stored == s.history.stored && s'.topic.nextId == s.topic.nextId
    decreases |order|
  {
    if order != [] {
      TimeOutLeavesOthers(s, order, steady, c);
      RetryScanStoresNothing(TimeOut(s, order[0], steady, c), order[1..], steady, c);
    }
  }

  /** Only a publish stores anything or takes an id. */
  lemma OthersStoreNothing(s: System, a: Action, c: Settings)
    requires Enabled(s, a) && !a.Publishing?
    ensures Do(s, a, c).history.stored == s.history.stored && Do(s, a, c).topic.nextId == s.topic.nextId
  {
    match a
    case Pulling(key, max, now, steady) =>
      var goal := |s.history.deliveries| + max;
      DrainAllLeavesCopies(Tick(s, now));
      ScanLogStoresNothing(OpenPull(s, key, now), key, 0, goal, steady);
      ScanRetryStoresNothing(PullLog(s, key, max, now, steady), key, 0, goal, steady);
    case Retrying(order, now, steady) => RetryScanStoresNothing(Tick(s, now), order, steady, c);
    case _ =>
  }

  lemma {:induction false} StoredIsAccepted(run: seq<System>, actions: seq<Action>, c: Settings, i: nat)
    requires IsRun(run, actions, c) && i < |run|
    ensures run[i].history.stored == Accepted(actions[..i]) && run[i].topic.nextId == 1 + Publishes(actions[..i])
  {
    hide Pull, Ack, PullDlq, RetryScan, ExpiryScan, Enumerates;
    if i > 0 {
      StoredIsAccepted(run, actions, c, i - 1);
      assert actions[..i][..i - 1] == actions[..i - 1] && actions[..i][i - 1] == actions[i - 1];
      if !actions[i - 1].Publishing? {
        OthersStoreNothing(run[i - 1], actions[i - 1], c);
      }
    }
  }

  /**
   The log followed by the messages still in the ring is the sequence of successful publishes, in order, without those
   that the expiry scan has purged; what was purged had expired, and ids increase and stay below the next one.
   */
  lemma LogIsAcceptedMinusExpired(run: seq<System>, actions: seq<Action>, c: Settings, i: nat)
    requires IsRun(run, actions, c) && i < |run|
    ensures var s, accepted := run[i], Accepted(actions[..i]);
            && s.topic.log + s.topic.ring == Remaining(accepted, s.history.purged)
            && Increasing(accepted) && Increasing(s.topic.log + s.topic.ring)
            && (forall m :: m in accepted ==> 1 <= m.id < s.topic.nextId)
            && (forall m :: m in accepted && m.id in s.history.purged ==> Expired(m, s.history.now))
  {
    hide Inv;
    RunKeepsInv(run, actions, c, i);
    InvParts(run[i], c.maxRetry);
    StoredIsAccepted(run, actions, c, i);
    LogFacts(run[i]);
    forall m | m in run[i].history.stored
      ensures StoredInv(m, run[i])
    {
      var k :| 0 <= k < |run[i].history.stored| && run[i].history.stored[k] == m;
    }
  }

  lemma DeliveredSurvives(s: System, maxRetry: nat, d: Delivery)
    requires Inv(s, maxRetry) && d in s.history.deliveries
    ensures AckedBySome(s.history.acked, d.msg.id) || Expired(d.msg, s.history.now) || HasCopy(s, d.msg.id)
    ensures d.msg.(retryCount := 0) in s.history.stored
  {
    InvParts(s, maxRetry);
    assert (d.key, d.msg.id) in HandedTo(s.history.deliveries);
    assert CopyOf(d.msg, s.history.stored, maxRetry);
    assert Survives(s, d.msg.(retryCount := 0));
  }

  /** A delivered message that nobody has acknowledged and that has not expired still has a copy somewhere. */
  lemma UnacknowledgedSurvives(run: seq<System>, actions: seq<Action>, c: Settings, i: nat, d: Delivery)
    requires IsRun(run, actions, c) && i < |run| && d in run[i].history.deliveries
    requires !AckedBySome(run[i].history.acked, d.msg.id) && !Expired(d.msg, run[i].history.now)
    ensures HasCopy(run[i], d.msg.id)
    ensures d.msg.(retryCount := 0) in Accepted(actions[..i])
  {
    hide Inv;
    RunKeepsInv(run, actions, c, i);
    StoredIsAccepted(run, actions, c, i);
    DeliveredSurvives(run[i], c.maxRetry, d);
  }

  /** Every copy is one of an accepted message and within the retry limit, dead letters exactly at it; retry ids are distinct. */
  lemma RetryLimits(run: seq<System>, actions: seq<Action>, c: Settings, i: nat)
    requires IsRun(run, actions, c) && i < |run|
    ensures var s, accepted := run[i], Accepted(actions[..i]);
            && (forall x :: x in s.topic.pending ==> s.topic.pending[x].msg.id == x.1 && CopyOf(s.topic.pending[x].msg, accepted, c.maxRetry))
            && (forall m :: m in s.topic.retry ==> CopyOf(m, accepted, c.maxRetry))
            && (forall m :: m in s.history.dlqPulled + s.topic.dlq ==> CopyOf(m, accepted, c.maxRetry) && m.retryCount == c.maxRetry)
            && (forall d :: d in s.history.deliveries ==> CopyOf(d.msg, accepted, c.maxRetry))
            && Distinct(s.topic.retry)
  {
    hide Inv;
    RunKeepsInv(run, actions, c, i);
    InvParts(run[i], c.maxRetry);
    StoredIsAccepted(run, actions, c, i);
  }

  lemma {:induction false} OffsetsNeverDecrease(run: seq<System>, actions: seq<Action>, c: Settings, i: nat, j: nat, key: ConsumerKey)
    requires IsRun(run, actions, c) && i <= j < |run|
    ensures Offset(run[i].topic, key) <= Offset(run[j].topic, key)
  {
    if i < j {
      OffsetsNeverDecrease(run, actions, c, i, j - 1, key);
      ActionRaisesOffsets(run[j - 1], actions[j - 1], c, key);
    }
  }

  /**
   Offsets leave no gap: an accepted message that a consumer's offset has passed was handed to this consumer, or has
   expired; and a consumer takes messages from the log in the strict order of their ids.
   */
  lemma OffsetsLeaveNoGap(run: seq<System>, actions: seq<Action>, c: Settings, i: nat, key: ConsumerKey)
    requires IsRun(run, actions, c) && i < |run|
    ensures forall m :: m in Accepted(actions[..i]) && m.id < Offset(run[i].topic, key) ==>
      (exists d :: d in run[i].history.deliveries && d.key == key && d.msg.id == m.id) || Expired(m, run[i].history.now)
    ensures var ds := run[i].history.deliveries;
            forall a, b :: 0 <= a < b < |ds| && ds[a].fromLog && ds[b].fromLog && ds[a].key == key && ds[b].key == key ==>
              ds[a].msg.id < ds[b].msg.id
  {
    hide Inv;
    RunKeepsInv(run, actions, c, i);
    InvParts(run[i], c.maxRetry);
    StoredIsAccepted(run, actions, c, i);
    var ds := run[i].history.deliveries;
    forall m | m in Accepted(actions[..i]) && m.id < Offset(run[i].topic, key) && !Expired(m, run[i].history.now)
      ensures exists d :: d in ds && d.key == key && d.msg.id == m.id
    {
      assert (key, m.id) in HandedTo(ds);
    }
  }
}
