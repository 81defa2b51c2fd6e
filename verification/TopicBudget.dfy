/** Bounded redelivery, by counting the deliveries that the live copies of a message can still bring about. */
module TopicBudget {
  import opened TopicState
  import opened TopicInvariants
  import opened TopicRuns

  ghost function Count(ds: seq<Delivery>, id: nat): nat {
    if ds == [] then 0 else Count(ds[..|ds| - 1], id) + (if ds[|ds| - 1].msg.id == id then 1 else 0)
  }

  ghost function LogTakes(ds: seq<Delivery>, id: nat): nat {
    if ds == [] then 0 else
      LogTakes(ds[..|ds| - 1], id) + (if ds[|ds| - 1].msg.id == id && ds[|ds| - 1].fromLog then 1 else 0)
  }

  lemma CountSnoc(ds: seq<Delivery>, d: Delivery, id: nat)
    ensures Count(ds + [d], id) == Count(ds, id) + (if d.msg.id == id then 1 else 0)
    ensures LogTakes(ds + [d], id) == LogTakes(ds, id) + (if d.msg.id == id && d.fromLog then 1 else 0)
  {
  }

  /** The deliveries still to come from a copy that has been delivered `retryCount + 1` times. */
  function Left(m: Message, maxRetry: nat): nat {
    if m.retryCount <= maxRetry then maxRetry - m.retryCount else 0
  }

  function PendingShare(x: CopyKey, p: Pending, id: nat, maxRetry: nat): nat {
    if x.1 == id then Left(p.msg, maxRetry) else 0
  }

  /** A queued copy will be delivered once more itself. */
  function RetryShare(m: Message, id: nat, maxRetry: nat): nat {
    if m.id == id then Left(m, maxRetry) + 1 else 0
  }

  ghost function PendingCredit(pending: map<CopyKey, Pending>, id: nat, maxRetry: nat): nat {
    if pending == map[] then 0 else
      var x :| x in pending;
      PendingShare(x, pending[x], id, maxRetry) + PendingCredit(pending - {x}, id, maxRetry)
  }

  ghost function RetryCredit(retry: seq<Message>, id: nat, maxRetry: nat): nat {
    if retry == [] then 0 else RetryShare(retry[0], id, maxRetry) + RetryCredit(retry[1..], id, maxRetry)
  }

  lemma {:induction false} PendingCreditRemove(pending: map<CopyKey, Pending>, x: CopyKey, id: nat, maxRetry: nat)
    requires x in pending
    ensures PendingCredit(pending, id, maxRetry) ==
      PendingShare(x, pending[x], id, maxRetry) + PendingCredit(pending - {x}, id, maxRetry)
    decreases |pending|
  {
    var y :| y in pending && PendingCredit(pending, id, maxRetry) ==
      PendingShare(y, pending[y], id, maxRetry) + PendingCredit(pending - {y}, id, maxRetry);
    if x != y {
      PendingCreditRemove(pending - {y}, x, id, maxRetry);
      PendingCreditRemove(pending - {x}, y, id, maxRetry);
      assert pending - {y} - {x} == pending - {x} - {y};
    }
  }

  lemma PendingCreditAdd(pending: map<CopyKey, Pending>, x: CopyKey, p: Pending, id: nat, maxRetry: nat)
    requires x !in pending
    ensures PendingCredit(pending[x := p], id, maxRetry) ==
      PendingShare(x, p, id, maxRetry) + PendingCredit(pending, id, maxRetry)
  {
    PendingCreditRemove(pending[x := p], x, id, maxRetry);
    assert pending[x := p] - {x} == pending;
  }

  lemma {:induction false} PendingCreditSub(part: map<CopyKey, Pending>, pending: map<CopyKey, Pending>, id: nat, maxRetry: nat)
    requires forall x :: x in part ==> x in pending && part[x] == pending[x]
    ensures PendingCredit(part, id, maxRetry) <= PendingCredit(pending, id, maxRetry)
    decreases |part|
  {
    if part != map[] {
      var x :| x in part;
      PendingCreditRemove(part, x, id, maxRetry);
      PendingCreditRemove(pending, x, id, maxRetry);
      PendingCreditSub(part - {x}, pending - {x}, id, maxRetry);
    }
  }

  lemma {:induction false} RetryCreditConcat(a: seq<Message>, b: seq<Message>, id: nat, maxRetry: nat)
    ensures RetryCredit(a + b, id, maxRetry) == RetryCredit(a, id, maxRetry) + RetryCredit(b, id, maxRetry)
  {
    if a == [] {
      assert a + b == b;
    } else {
      RetryCreditConcat(a[1..], b, id, maxRetry);
      assert (a + b)[1..] == a[1..] + b;
    }
  }

  lemma RetryCreditRemoveAt(q: seq<Message>, j: nat, id: nat, maxRetry: nat)
    requires j < |q|
    ensures RetryCredit(q, id, maxRetry) == RetryShare(q[j], id, maxRetry) + RetryCredit(RemoveAt(q, j), id, maxRetry)
  {
    assert q == q[..j] + ([q[j]] + q[j + 1..]);
    RetryCreditConcat(q[..j], [q[j]] + q[j + 1..], id, maxRetry);
    assert ([q[j]] + q[j + 1..])[1..] == q[j + 1..];
    RetryCreditConcat(q[..j], q[j + 1..], id, maxRetry);
  }

  lemma {:induction false} RetryCreditWithout(q: seq<Message>, gone: nat, id: nat, maxRetry: nat)
    ensures RetryCredit(Without(q, gone), id, maxRetry) <= RetryCredit(q, id, maxRetry)
  {
    if q != [] {
      RetryCreditWithout(q[1..], gone, id, maxRetry);
      if q[0].id != gone {
        assert Without(q, gone)[1..] == Without(q[1..], gone);
      }
    }
  }

  lemma {:induction false} RetryCreditUnexpired(q: seq<Message>, now: nat, id: nat, maxRetry: nat)
    ensures RetryCredit(Unexpired(q, now), id, maxRetry) <= RetryCredit(q, id, maxRetry)
  {
    if q != [] {
      RetryCreditUnexpired(q[1..], now, id, maxRetry);
      if !Expired(q[0], now) {
        assert Unexpired(q, now)[1..] == Unexpired(q[1..], now);
      }
    }
  }

  ghost function Credit(s: System, id: nat, maxRetry: nat): nat {
    PendingCredit(s.topic.pending, id, maxRetry) + RetryCredit(s.topic.retry, id, maxRetry)
  }

  /** Deliveries made and deliveries still possible stay within one retry budget for each time a log gave the message out. */
  ghost predicate Budget(s: System, id: nat, maxRetry: nat) {
    Count(s.history.deliveries, id) + Credit(s, id, maxRetry) <= LogTakes(s.history.deliveries, id) * (maxRetry + 1)
  }

  lemma TakeKeepsBudget(s: System, key: ConsumerKey, m: Message, steady: SteadyClock, id: nat, maxRetry: nat)
    requires Budget(s, id, maxRetry) && (key, m.id) !in s.topic.pending && m.retryCount == 0
    ensures Budget(MoveOffset(Deliver(s, key, m, true, steady), key, m.id + 1), id, maxRetry)
  {
    hide Count, LogTakes, PendingCredit, RetryCredit;
    CountSnoc(s.history.deliveries, Delivery(key, m, true), id);
    PendingCreditAdd(s.topic.pending, (key, m.id), Pending(m, steady(|s.history.deliveries|)), id, maxRetry);
    if m.id == id {
      var takes := LogTakes(s.history.deliveries, id);
      assert (takes + 1) * (maxRetry + 1) == takes * (maxRetry + 1) + (maxRetry + 1);
    }
  }

  lemma TakeRetryKeepsBudget(s: System, key: ConsumerKey, j: nat, steady: SteadyClock, id: nat, maxRetry: nat)
    requires Budget(s, id, maxRetry) && j < |s.topic.retry| && (key, s.topic.retry[j].id) !in s.topic.pending
    ensures Budget(Deliver(DropRetry(s, j), key, s.topic.retry[j], false, steady), id, maxRetry)
  {
    var m := s.topic.retry[j];
    CountSnoc(s.history.deliveries, Delivery(key, m, false), id);
    RetryCreditRemoveAt(s.topic.retry, j, id, maxRetry);
    PendingCreditAdd(s.topic.pending, (key, m.id), Pending(m, steady(|s.history.deliveries|)), id, maxRetry);
  }

  lemma DropRetryKeepsBudget(s: System, j: nat, id: nat, maxRetry: nat)
    requires Budget(s, id, maxRetry) && j < |s.topic.retry|
    ensures Budget(DropRetry(s, j), id, maxRetry)
  {
    RetryCreditRemoveAt(s.topic.retry, j, id, maxRetry);
  }

  lemma DropPendingKeepsBudget(s: System, x: CopyKey, id: nat, maxRetry: nat)
    requires Budget(s, id, maxRetry)
    ensures Budget(DropPending(s, x), id, maxRetry)
  {
    PendingCreditSub(s.topic.pending - {x}, s.topic.pending, id, maxRetry);
  }

  /** A requeued copy has one retry less to go, and one delivery to come instead. */
  lemma RequeueCredit(retry: seq<Message>, m: Message, id: nat, maxRetry: nat)
    requires m.retryCount < maxRetry
    ensures RetryCredit(Without(retry, m.id) + [m.(retryCount := m.retryCount + 1)], id, maxRetry)
      <= RetryCredit(retry, id, maxRetry) + (if m.id == id then Left(m, maxRetry) else 0)
  {
    var again := m.(retryCount := m.retryCount + 1);
    RetryCreditWithout(retry, m.id, id, maxRetry);
    RetryCreditConcat(Without(retry, m.id), [again], id, maxRetry);
    RetryCreditOne(again, id, maxRetry);
  }

  lemma TimeOutKeepsBudget(s: System, x: CopyKey, steady: int, c: Settings, id: nat)
    requires Budget(s, id, c.maxRetry) && x in s.topic.pending && s.topic.pending[x].msg.id == x.1
    ensures Budget(TimeOut(s, x, steady, c), id, c.maxRetry)
  {
    var m := s.topic.pending[x].msg;
    PendingCreditRemove(s.topic.pending, x, id, c.maxRetry);
    if m.retryCount < c.maxRetry {
      RequeueCredit(s.topic.retry, m, id, c.maxRetry);
    }
  }

  lemma RetryCreditOne(m: Message, id: nat, maxRetry: nat)
    ensures RetryCredit([m], id, maxRetry) == RetryShare(m, id, maxRetry)
  {
  }

  lemma {:induction false} RetryScanKeepsBudget(s: System, order: seq<CopyKey>, steady: int, c: Settings, id: nat)
    requires Inv(s, c.maxRetry) && Budget(s, id, c.maxRetry)
    requires Visitable(order, s.topic.pending)
    ensures Budget(RetryScan(s, order, steady, c), id, c.maxRetry)
    decreases |order|
  {
    if order != [] {
      TimeOutKeepsInv(s, order[0], steady, c);
      TimeOutLeavesOthers(s, order, steady, c);
      TimeOutKeepsBudget(s, order[0], steady, c, id);
      RetryScanKeepsBudget(TimeOut(s, order[0], steady, c), order[1..], steady, c, id);
    }
  }

  lemma VisitLogKeepsBudget(s: System, key: ConsumerKey, j: nat, steady: SteadyClock, id: nat, maxRetry: nat)
    requires LogInv(s) && Budget(s, id, maxRetry) && j < |s.topic.log|
    ensures Budget(VisitLog(s, key, s.topic.log[j], steady), id, maxRetry)
  {
    var m := s.topic.log[j];
    if m.id >= Offset(s.topic, key) && !Expired(m, s.history.now) && (key, m.id) !in s.topic.pending {
      LogMessageUnretried(s, m);
      TakeKeepsBudget(s, key, m, steady, id, maxRetry);
    }
  }

  lemma LogMessageUnretried(s: System, m: Message)
    requires LogInv(s) && m in s.topic.log
    ensures m.retryCount == 0
  {
    LogFacts(s);
    var i :| 0 <= i < |s.history.stored| && s.history.stored[i] == m;
    assert StoredInv(s.history.stored[i], s);
  }

  lemma {:induction false} ScanLogKeepsBudget(s: System, key: ConsumerKey, j: nat, goal: nat, steady: SteadyClock, id: nat, maxRetry: nat)
    requires LogInv(s) && Budget(s, id, maxRetry)
    ensures Budget(ScanLog(s, key, j, goal, steady), id, maxRetry)
    decreases |s.topic.log| - j
  {
    if j < |s.topic.log| && |s.history.deliveries| < goal {
      OtherKeepsLogInv(s, VisitLog(s, key, s.topic.log[j], steady));
      VisitLogKeepsBudget(s, key, j, steady, id, maxRetry);
      ScanLogKeepsBudget(VisitLog(s, key, s.topic.log[j], steady), key, j + 1, goal, steady, id, maxRetry);
    }
  }

  lemma {:induction false} ScanRetryKeepsBudget(s: System, key: ConsumerKey, j: nat, goal: nat, steady: SteadyClock, id: nat, maxRetry: nat)
    requires Budget(s, id, maxRetry)
    ensures Budget(ScanRetry(s, key, j, goal, steady), id, maxRetry)
    decreases |s.topic.retry| - j
  {
    if j < |s.topic.retry| && |s.history.deliveries| < goal {
      var m := s.topic.retry[j];
      if Expired(m, s.history.now) {
        DropRetryKeepsBudget(s, j, id, maxRetry);
        ScanRetryKeepsBudget(DropRetry(s, j), key, j, goal, steady, id, maxRetry);
      } else if (key, m.id) in s.topic.pending {
        ScanRetryKeepsBudget(s, key, j + 1, goal, steady, id, maxRetry);
      } else {
        TakeRetryKeepsBudget(s, key, j, steady, id, maxRetry);
        ScanRetryKeepsBudget(Deliver(DropRetry(s, j), key, m, false, steady), key, j, goal, steady, id, maxRetry);
      }
    }
  }

  lemma PullKeepsBudget(s: System, key: ConsumerKey, max: nat, now: nat, steady: SteadyClock, id: nat, maxRetry: nat)
    requires Inv(s, maxRetry) && now >= s.history.now && Budget(s, id, maxRetry)
    ensures Budget(Pull(s, key, max, now, steady), id, maxRetry)
  {
    hide Inv, ScanLog, ScanRetry, DrainAll;
    var goal := |s.history.deliveries| + max;
    OpenPullKeepsInv(s, key, now, maxRetry);
    DrainAllLeavesCopies(Tick(s, now));
    assert Budget(OpenPull(s, key, now), id, maxRetry);
    InvParts(OpenPull(s, key, now), maxRetry);
    ScanLogKeepsBudget(OpenPull(s, key, now), key, 0, goal, steady, id, maxRetry);
    ScanRetryKeepsBudget(PullLog(s, key, max, now, steady), key, 0, goal, steady, id, maxRetry);
  }

  lemma ExpiryScanKeepsBudget(s: System, now: nat, id: nat, maxRetry: nat)
    requires Budget(s, id, maxRetry)
    ensures Budget(ExpiryScan(s, now), id, maxRetry)
  {
    PendingCreditSub(ExpiryScan(s, now).topic.pending, s.topic.pending, id, maxRetry);
    RetryCreditUnexpired(s.topic.retry, now, id, maxRetry);
  }

  lemma ActionKeepsBudget(s: System, a: Action, c: Settings, id: nat)
    requires Inv(s, c.maxRetry) && Enabled(s, a) && Budget(s, id, c.maxRetry)
    ensures Budget(Do(s, a, c), id, c.maxRetry)
  {
    hide Inv, Pull, RetryScan, ExpiryScan, Visitable, Count, LogTakes, PendingCredit, RetryCredit;
    match a
    case Publishing(_, _, _, _, _) =>
    case Pulling(key, max, now, steady) => PullKeepsBudget(s, key, max, now, steady, id, c.maxRetry);
    case Acking(x) =>
      if x in s.topic.pending {
        DropPendingKeepsBudget(s.(history := s.history.(acked := s.history.acked + {x})), x, id, c.maxRetry);
      }
    case PullingDlq(max) =>
    case Retrying(order, now, steady) =>
      TickKeepsInv(s, now, c.maxRetry);
      RetryScanKeepsBudget(Tick(s, now), order, steady, c, id);
    case Expiring(now) => ExpiryScanKeepsBudget(s, now, id, c.maxRetry);
  }

  lemma {:induction false} RunKeepsBudget(run: seq<System>, actions: seq<Action>, c: Settings, i: nat, id: nat)
    requires IsRun(run, actions, c) && i < |run|
    ensures Budget(run[i], id, c.maxRetry)
  {
    if i > 0 {
      RunKeepsBudget(run, actions, c, i - 1, id);
      RunKeepsInv(run, actions, c, i - 1);
      ActionKeepsBudget(run[i - 1], actions[i - 1], c, id);
    }
  }

  /** The consumers that took message `id` from the log. */
  ghost function Takers(ds: seq<Delivery>, id: nat): set<ConsumerKey> {
    set d | d in ds && d.fromLog && d.msg.id == id :: d.key
  }

  /** No consumer takes a message from the log twice, so takes and takers are equally many. */
  lemma {:induction false} TakesAreTakers(ds: seq<Delivery>, id: nat)
    requires forall i, j :: 0 <= i < j < |ds| && ds[i].fromLog && ds[j].fromLog && ds[i].key == ds[j].key ==>
      ds[i].msg.id < ds[j].msg.id
    ensures LogTakes(ds, id) == |Takers(ds, id)|
  {
    if ds != [] {
      var front, last := ds[..|ds| - 1], ds[|ds| - 1];
      TakesAreTakers(front, id);
      assert ds == front + [last];
      TakersSnoc(front, last, id);
    }
  }

  lemma TakersSnoc(ds: seq<Delivery>, d: Delivery, id: nat)
    ensures Takers(ds + [d], id) == Takers(ds, id) + if d.fromLog && d.msg.id == id then {d.key} else {}
  {
    assert forall e :: e in ds + [d] <==> e in ds || e == d;
  }

  /** A message is delivered at most once and `maxRetry` times again for each consumer that took it from the log. */
  lemma BoundedRedelivery(run: seq<System>, actions: seq<Action>, c: Settings, i: nat, id: nat)
    requires IsRun(run, actions, c) && i < |run|
    ensures Count(run[i].history.deliveries, id) <= |Takers(run[i].history.deliveries, id)| * (c.maxRetry + 1)
  {
    RunKeepsBudget(run, actions, c, i, id);
    RunKeepsInv(run, actions, c, i);
    TakesAreTakers(run[i].history.deliveries, id);
  }
}
