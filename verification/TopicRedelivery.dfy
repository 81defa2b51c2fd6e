/** How often a message has been delivered when it is retried or becomes a dead letter. */
module TopicRedelivery {
  import opened TopicState
  import opened MessageSeqs
  import opened TopicInvariants
  import opened TopicRuns
  import opened RetryOrders
  import opened TopicBudget
  import opened TopicPull
  import opened TopicSharing

  ghost predicate PendingDelivered(pending: map<CopyKey, Pending>, ds: seq<Delivery>) {
    forall x :: x in pending ==> Count(ds, x.1) >= pending[x].msg.retryCount + 1
  }

  ghost predicate QueuedDelivered(q: seq<Message>, ds: seq<Delivery>, more: nat) {
    forall m :: m in q ==> Count(ds, m.id) >= m.retryCount + more
  }

  /** A copy with a retry count has been delivered so often before; a pending or dead one once more. */
  ghost predicate RetriesDelivered(s: System) {
    && PendingDelivered(s.topic.pending, s.history.deliveries)
    && QueuedDelivered(s.topic.retry, s.history.deliveries, 0)
    && QueuedDelivered(s.topic.dlq, s.history.deliveries, 1)
    && QueuedDelivered(s.history.dlqPulled, s.history.deliveries, 1)
  }

  lemma DeliverOnce(s: System, key: ConsumerKey, m: Message, fromLog: bool, steady: SteadyClock)
    requires RetriesDelivered(s) && Count(s.history.deliveries, m.id) >= m.retryCount
    ensures RetriesDelivered(Deliver(s, key, m, fromLog, steady))
  {
    hide Count;
    forall id: nat
      ensures Count(Deliver(s, key, m, fromLog, steady).history.deliveries, id) ==
              Count(s.history.deliveries, id) + if m.id == id then 1 else 0
    {
      CountSnoc(s.history.deliveries, Delivery(key, m, fromLog), id);
    }
  }

  /** Copies that are still there or were dropped. */
  lemma NothingNew(s: System, s': System)
    requires RetriesDelivered(s) && s'.history.deliveries == s.history.deliveries
    requires forall x :: x in s'.topic.pending ==> x in s.topic.pending && s'.topic.pending[x] == s.topic.pending[x]
    requires forall m :: m in s'.topic.retry ==> m in s.topic.retry
    requires forall m :: m in s'.topic.dlq || m in s'.history.dlqPulled ==> m in s.topic.dlq || m in s.history.dlqPulled
    ensures RetriesDelivered(s')
  {
  }

  lemma {:induction false} ScanLogCounts(s: System, key: ConsumerKey, j: nat, goal: nat, steady: SteadyClock)
    requires LogInv(s) && RetriesDelivered(s)
    ensures RetriesDelivered(ScanLog(s, key, j, goal, steady))
    decreases |s.topic.log| - j
  {
    hide LogInv, RetriesDelivered, ScanLog;
    ScanLogUnfold(s, key, j, goal, steady);
    if j < |s.topic.log| && |s.history.deliveries| < goal {
      var s' := VisitLog(s, key, s.topic.log[j], steady);
      LogMessageUnretried(s, s.topic.log[j]);
      VisitLogCounts(s, key, s.topic.log[j], steady);
      OtherKeepsLogInv(s, s');
      ScanLogCounts(s', key, j + 1, goal, steady);
    }
  }

  lemma ScanLogUnfold(s: System, key: ConsumerKey, j: nat, goal: nat, steady: SteadyClock)
    ensures ScanLog(s, key, j, goal, steady) ==
            if j >= |s.topic.log| || |s.history.deliveries| >= goal then s
            else ScanLog(VisitLog(s, key, s.topic.log[j], steady), key, j + 1, goal, steady)
  {
  }

  lemma VisitLogCounts(s: System, key: ConsumerKey, m: Message, steady: SteadyClock)
    requires RetriesDelivered(s) && m.retryCount == 0
    ensures RetriesDelivered(VisitLog(s, key, m, steady))
  {
    DeliverOnce(s, key, m, true, steady);
  }

  lemma {:induction false} ScanRetryCounts(s: System, key: ConsumerKey, j: nat, goal: nat, steady: SteadyClock)
    requires RetriesDelivered(s)
    ensures RetriesDelivered(ScanRetry(s, key, j, goal, steady))
    decreases |s.topic.retry| - j
  {
    hide RetriesDelivered;
    if j < |s.topic.retry| && |s.history.deliveries| < goal {
      var m := s.topic.retry[j];
      TakeRetryCounts(s, key, j, steady);
      if Expired(m, s.history.now) {
        ScanRetryCounts(DropRetry(s, j), key, j, goal, steady);
      } else if (key, m.id) in s.topic.pending {
        ScanRetryCounts(s, key, j + 1, goal, steady);
      } else {
        ScanRetryCounts(Deliver(DropRetry(s, j), key, m, false, steady), key, j, goal, steady);
      }
    }
  }

  lemma TakeRetryCounts(s: System, key: ConsumerKey, j: nat, steady: SteadyClock)
    requires RetriesDelivered(s) && j < |s.topic.retry|
    ensures RetriesDelivered(DropRetry(s, j))
    ensures RetriesDelivered(Deliver(DropRetry(s, j), key, s.topic.retry[j], false, steady))
  {
    RemoveAtMembers(s.topic.retry, j);
    NothingNew(s, DropRetry(s, j));
    assert s.topic.retry[j] in s.topic.retry;
    DeliverOnce(DropRetry(s, j), key, s.topic.retry[j], false, steady);
  }

  lemma PullCounts(s: System, key: ConsumerKey, max: nat, now: nat, steady: SteadyClock, maxRetry: nat)
    requires Inv(s, maxRetry) && now >= s.history.now && RetriesDelivered(s)
    ensures RetriesDelivered(Pull(s, key, max, now, steady))
  {
    hide Inv, ScanLog, ScanRetry, DrainAll, RetriesDelivered;
    var goal := |s.history.deliveries| + max;
    DrainAllLeavesCopies(Tick(s, now));
    NothingNew(s, OpenPull(s, key, now));
    OpenPullKeepsInv(s, key, now, maxRetry);
    InvParts(OpenPull(s, key, now), maxRetry);
    ScanLogCounts(OpenPull(s, key, now), key, 0, goal, steady);
    ScanRetryCounts(PullLog(s, key, max, now, steady), key, 0, goal, steady);
  }

  lemma TimeOutCounts(s: System, x: CopyKey, steady: int, c: Settings)
    requires RetriesDelivered(s) && x in s.topic.pending && s.topic.pending[x].msg.id == x.1
    ensures RetriesDelivered(TimeOut(s, x, steady, c))
  {
    hide Count;
    WithoutMembers(s.topic.retry, x.1);
  }

  lemma {:induction false} RetryScanCounts(s: System, order: seq<CopyKey>, steady: int, c: Settings)
    requires Inv(s, c.maxRetry) && Visitable(order, s.topic.pending) && RetriesDelivered(s)
    ensures RetriesDelivered(RetryScan(s, order, steady, c))
    decreases |order|
  {
    hide Inv, TimeOut, RetryScan, RetriesDelivered;
    InvParts(s, c.maxRetry);
    if order == [] {
      RetryScanNothing(s, steady, c);
    } else {
      RetryScanFirst(s, order, steady, c);
      TimeOutCounts(s, order[0], steady, c);
      TimeOutKeepsInv(s, order[0], steady, c);
      RetryScanCounts(TimeOut(s, order[0], steady, c), order[1..], steady, c);
    }
  }

  lemma ActionCounts(s: System, a: Action, c: Settings)
    requires Inv(s, c.maxRetry) && Enabled(s, a) && RetriesDelivered(s)
    ensures RetriesDelivered(Do(s, a, c))
  {
    hide Inv, Pull, RetryScan, RetriesDelivered, Visitable;
    match a
    case Publishing(_, _, _, _, _) => NothingNew(s, Do(s, a, c));
    case Pulling(key, max, now, steady) => PullCounts(s, key, max, now, steady, c.maxRetry);
    case Acking(x) => NothingNew(s, Do(s, a, c));
    case PullingDlq(max) => NothingNew(s, Do(s, a, c));
    case Retrying(order, now, steady) =>
      TickKeepsInv(s, now, c.maxRetry);
      NothingNew(s, Tick(s, now));
      RetryScanCounts(Tick(s, now), order, steady, c);
    case Expiring(now) =>
      UnexpiredMembers(s.topic.retry, now);
      NothingNew(s, Do(s, a, c));
  }

  lemma {:induction false} RunCounts(run: seq<System>, actions: seq<Action>, c: Settings, i: nat)
    requires IsRun(run, actions, c) && i < |run|
    ensures RetriesDelivered(run[i])
  {
    hide Inv, RetriesDelivered;
    if i == 0 {
      assert RetriesDelivered(EMPTY_SYSTEM) by { NoCopies(); }
    } else {
      RunCounts(run, actions, c, i - 1);
      RunKeepsInv(run, actions, c, i - 1);
      ActionCounts(run[i - 1], actions[i - 1], c);
    }
  }

  lemma NoCopies()
    ensures RetriesDelivered(EMPTY_SYSTEM)
  {
  }

  /**
   No retry is skipped: in any run a dead letter, pulled or not, was delivered once and `maxRetry` times again at least, and a
   pending copy once and as often again as its retry count says.
  */
  lemma DeadWasRetried(run: seq<System>, actions: seq<Action>, c: Settings, i: nat)
    requires IsRun(run, actions, c) && i < |run|
    ensures var t, ds := run[i].topic, run[i].history.deliveries;
            && (forall m :: m in run[i].history.dlqPulled + t.dlq ==> Count(ds, m.id) >= c.maxRetry + 1)
            && (forall x :: x in t.pending ==> Count(ds, x.1) >= t.pending[x].msg.retryCount + 1)
            && (forall m :: m in t.retry ==> Count(ds, m.id) >= m.retryCount)
  {
    hide Inv, IsRun, Count;
    RunCounts(run, actions, c, i);
    RunKeepsInv(run, actions, c, i);
    InvParts(run[i], c.maxRetry);
  }

  lemma CreditOfQueued(retry: seq<Message>, m: Message, maxRetry: nat)
    requires m in retry
    ensures RetryCredit(retry, m.id, maxRetry) >= RetryShare(m, m.id, maxRetry)
  {
    var j :| 0 <= j < |retry| && retry[j] == m;
    RetryCreditRemoveAt(retry, j, m.id, maxRetry);
  }

  lemma OneTaker(ds: seq<Delivery>, key: ConsumerKey, id: nat)
    requires forall d :: d in ds ==> d.key in {key}
    ensures |Takers(ds, id)| <= 1
  {
    assert Takers(ds, id) <= {key};
    SubsetSize(Takers(ds, id), {key});
  }

  /** With one consumer the counts are exact: a dead letter was delivered once and exactly `maxRetry` times again. */
  lemma RetriesExactly(run: seq<System>, actions: seq<Action>, c: Settings, i: nat, key: ConsumerKey)
    requires IsRun(run, actions, c) && i < |run| && forall k :: 0 <= k < |actions| ==> OnlyBy(actions[k], {key})
    ensures var t, ds := run[i].topic, run[i].history.deliveries;
            && (forall m :: m in run[i].history.dlqPulled + t.dlq ==> Count(ds, m.id) == c.maxRetry + 1)
            && (forall x :: x in t.pending ==> Count(ds, x.1) == t.pending[x].msg.retryCount + 1)
            && (forall m :: m in t.retry ==> Count(ds, m.id) == m.retryCount)
  {
    hide Inv, IsRun, Count, OnlyBy, Takers, PendingCredit, RetryCredit;
    var t, ds := run[i].topic, run[i].history.deliveries;
    DeadWasRetried(run, actions, c, i);
    RunKeepsInv(run, actions, c, i);
    InvParts(run[i], c.maxRetry);
    RunKeepsAllBy(run, actions, c, {key}, i);
    forall id: nat
      ensures Count(ds, id) + Credit(run[i], id, c.maxRetry) <= c.maxRetry + 1
    {
      OneBudget(run, actions, c, i, key, id);
    }
    forall x | x in t.pending
      ensures Count(ds, x.1) <= t.pending[x].msg.retryCount + 1
    {
      PendingCreditRemove(t.pending, x, x.1, c.maxRetry);
    }
    forall m | m in t.retry
      ensures Count(ds, m.id) <= m.retryCount
    {
      CreditOfQueued(t.retry, m, c.maxRetry);
    }
  }

  lemma OneBudget(run: seq<System>, actions: seq<Action>, c: Settings, i: nat, key: ConsumerKey, id: nat)
    requires IsRun(run, actions, c) && i < |run| && AllBy(run[i], {key})
    ensures Count(run[i].history.deliveries, id) + Credit(run[i], id, c.maxRetry) <= c.maxRetry + 1
  {
    hide Inv, IsRun, Count, Takers, LogTakes, Credit;
    var ds := run[i].history.deliveries;
    RunKeepsBudget(run, actions, c, i, id);
    RunKeepsInv(run, actions, c, i);
    InvParts(run[i], c.maxRetry);
    TakesAreTakers(ds, id);
    OneTaker(ds, key, id);
    assert LogTakes(ds, id) == 0 || LogTakes(ds, id) == 1;
  }
}
