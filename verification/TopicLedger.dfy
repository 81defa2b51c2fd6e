/** Where the copies of a message are: each time the log gave it out is still accounted for. */
module TopicLedger {
  import opened TopicState
  import opened MessageSeqs
  import opened TopicInvariants
  import opened TopicRuns
  import opened RetryOrders
  import opened TopicBudget
  import opened TopicPull
  import opened TopicTheorems

  ghost function Waiting(pending: map<CopyKey, Pending>, id: nat): set<CopyKey> {
    set x | x in pending && x.1 == id
  }

  function Occurs(q: seq<Message>, id: nat): nat {
    if q == [] then 0 else (if q[0].id == id then 1 else 0) + Occurs(q[1..], id)
  }

  /** The copies there are: pending, queued for a retry, dead letters, and dead letters pulled. */
  ghost function Held(s: System, id: nat): nat {
    |Waiting(s.topic.pending, id)| + Occurs(s.topic.retry, id) + Occurs(s.topic.dlq, id) + Occurs(s.history.dlqPulled, id)
  }

  lemma WaitingAdd(pending: map<CopyKey, Pending>, x: CopyKey, p: Pending, id: nat)
    requires x !in pending
    ensures |Waiting(pending[x := p], id)| == |Waiting(pending, id)| + if x.1 == id then 1 else 0
  {
    if x.1 == id {
      assert Waiting(pending[x := p], id) == Waiting(pending, id) + {x};
    } else {
      assert Waiting(pending[x := p], id) == Waiting(pending, id);
    }
  }

  lemma WaitingRemove(pending: map<CopyKey, Pending>, x: CopyKey, id: nat)
    requires x in pending
    ensures |Waiting(pending, id)| == |Waiting(pending - {x}, id)| + if x.1 == id then 1 else 0
  {
    WaitingAdd(pending - {x}, x, pending[x], id);
    assert (pending - {x})[x := pending[x]] == pending;
  }

  lemma {:induction false} OccursConcat(a: seq<Message>, b: seq<Message>, id: nat)
    ensures Occurs(a + b, id) == Occurs(a, id) + Occurs(b, id)
  {
    if a == [] {
      assert a + b == b;
    } else {
      assert (a + b)[1..] == a[1..] + b;
      OccursConcat(a[1..], b, id);
    }
  }

  lemma OccursOne(m: Message, id: nat)
    ensures Occurs([m], id) == if m.id == id then 1 else 0
  {
    assert [m][1..] == [];
  }

  lemma OccursRemoveAt(q: seq<Message>, j: nat, id: nat)
    requires j < |q|
    ensures Occurs(q, id) == Occurs(RemoveAt(q, j), id) + if q[j].id == id then 1 else 0
  {
    assert q == q[..j] + ([q[j]] + q[j + 1..]);
    OccursConcat(q[..j], [q[j]] + q[j + 1..], id);
    OccursConcat([q[j]], q[j + 1..], id);
    OccursOne(q[j], id);
    OccursConcat(q[..j], q[j + 1..], id);
  }

  lemma {:induction false} OccursWithout(q: seq<Message>, gone: nat, id: nat)
    ensures Occurs(Without(q, gone), id) == if gone == id then 0 else Occurs(q, id)
  {
    if q != [] {
      OccursWithout(q[1..], gone, id);
      if q[0].id != gone {
        assert Without(q, gone)[1..] == Without(q[1..], gone);
      }
    }
  }

  lemma {:induction false} OccursUnexpired(q: seq<Message>, now: nat, id: nat)
    requires forall i :: 0 <= i < |q| && q[i].id == id ==> !Expired(q[i], now)
    ensures Occurs(Unexpired(q, now), id) == Occurs(q, id)
  {
    if q != [] {
      OccursUnexpired(q[1..], now, id);
      if !Expired(q[0], now) {
        assert Unexpired(q, now)[1..] == Unexpired(q[1..], now);
      }
    }
  }

  lemma {:induction false} OccursDistinct(q: seq<Message>, id: nat)
    requires Distinct(q)
    ensures Occurs(q, id) == if Holds(q, id) then 1 else 0
  {
    if q != [] {
      OccursDistinct(q[1..], id);
      if Holds(q[1..], id) {
        var j :| 0 <= j < |q[1..]| && q[1..][j].id == id;
        assert q[j + 1].id == id;
      }
      if Holds(q, id) && q[0].id != id {
        var j :| 0 <= j < |q| && q[j].id == id;
        assert q[1..][j - 1].id == id;
      }
    }
  }

  /** Another copy of the same message already waits for its retry, and the two become one. */
  ghost predicate Merging(s: System, x: CopyKey, steady: int, c: Settings)
    requires x in s.topic.pending
  {
    var p := s.topic.pending[x];
    steady - p.pullTime >= c.pendingTimeout && p.msg.retryCount < c.maxRetry && Holds(s.topic.retry, p.msg.id)
  }

  /** The retry scan keeps every copy that has not expired, except in a merge. */
  lemma TimeOutKeepsCopy(s: System, x: CopyKey, steady: int, c: Settings, id: nat)
    requires x in s.topic.pending && s.topic.pending[x].msg.id == x.1 && Distinct(s.topic.retry)
    requires x.1 == id ==> !Expired(s.topic.pending[x].msg, s.history.now)
    ensures Held(s, id) == Held(TimeOut(s, x, steady, c), id) + if x.1 == id && Merging(s, x, steady, c) then 1 else 0
  {
    var m := s.topic.pending[x].msg;
    var again := m.(retryCount := m.retryCount + 1);
    WaitingRemove(s.topic.pending, x, id);
    OccursConcat(s.topic.dlq, [m], id);
    OccursOne(m, id);
    OccursConcat(Without(s.topic.retry, m.id), [again], id);
    OccursOne(again, id);
    OccursWithout(s.topic.retry, m.id, id);
    OccursDistinct(s.topic.retry, id);
  }

  /** How many copies of the message a retry scan merges. */
  ghost function Merges(s: System, order: seq<CopyKey>, steady: int, c: Settings, id: nat): nat
    requires Visitable(order, s.topic.pending)
    decreases |order|
  {
    if order == [] then 0
    else
      RetryScanFirst(s, order, steady, c);
      (if order[0].1 == id && Merging(s, order[0], steady, c) then 1 else 0)
      + Merges(TimeOut(s, order[0], steady, c), order[1..], steady, c, id)
  }

  /** The message has not expired. */
  ghost predicate Alive(s: System, id: nat) {
    forall m :: m in s.history.stored && m.id == id ==> !Expired(m, s.history.now)
  }

  lemma CopyIsAlive(s: System, m: Message, maxRetry: nat)
    requires Alive(s, m.id) && CopyOf(m, s.history.stored, maxRetry)
    ensures !Expired(m, s.history.now)
  {
  }

  lemma {:induction false} RetryScanSettles(s: System, order: seq<CopyKey>, steady: int, c: Settings, id: nat)
    requires Inv(s, c.maxRetry) && Visitable(order, s.topic.pending) && Alive(s, id)
    ensures Held(s, id) == Held(RetryScan(s, order, steady, c), id) + Merges(s, order, steady, c, id)
    decreases |order|
  {
    hide Inv, TimeOut, RetryScan, Held, Merging;
    InvParts(s, c.maxRetry);
    if order == [] {
      RetryScanNothing(s, steady, c);
    } else {
      var x := order[0];
      RetryScanFirst(s, order, steady, c);
      if x.1 == id {
        CopyIsAlive(s, s.topic.pending[x].msg, c.maxRetry);
      }
      TimeOutKeepsCopy(s, x, steady, c, id);
      TimeOutKeepsInv(s, x, steady, c);
      TimeOutKeepsHistory(s, x, steady, c);
      RetryScanSettles(TimeOut(s, x, steady, c), order[1..], steady, c, id);
    }
  }

  lemma TimeOutKeepsHistory(s: System, x: CopyKey, steady: int, c: Settings)
    requires x in s.topic.pending
    ensures TimeOut(s, x, steady, c).history == s.history
  {
  }

  /** What the log gave out is held, or has been settled `done` times. */
  ghost predicate Settled(s: System, id: nat, done: nat) {
    LogTakes(s.history.deliveries, id) == Held(s, id) + done
  }

  lemma VisitLogSettles(s: System, key: ConsumerKey, m: Message, steady: SteadyClock, id: nat, done: nat)
    requires Settled(s, id, done)
    ensures Settled(VisitLog(s, key, m, steady), id, done)
  {
    hide LogTakes, Waiting, Occurs;
    CountSnoc(s.history.deliveries, Delivery(key, m, true), id);
    if (key, m.id) !in s.topic.pending {
      WaitingAdd(s.topic.pending, (key, m.id), Pending(m, steady(|s.history.deliveries|)), id);
    }
  }

  lemma {:induction false} ScanLogSettles(s: System, key: ConsumerKey, j: nat, goal: nat, steady: SteadyClock, id: nat, done: nat)
    requires Settled(s, id, done)
    ensures Settled(ScanLog(s, key, j, goal, steady), id, done)
    decreases |s.topic.log| - j
  {
    hide Settled;
    if j < |s.topic.log| && |s.history.deliveries| < goal {
      VisitLogSettles(s, key, s.topic.log[j], steady, id, done);
      ScanLogSettles(VisitLog(s, key, s.topic.log[j], steady), key, j + 1, goal, steady, id, done);
    }
  }

  ghost predicate RetryAlive(s: System, id: nat) {
    forall m :: m in s.topic.retry && m.id == id ==> !Expired(m, s.history.now)
  }

  lemma {:induction false} ScanRetrySettles(s: System, key: ConsumerKey, j: nat, goal: nat, steady: SteadyClock, id: nat, done: nat)
    requires Settled(s, id, done) && RetryAlive(s, id)
    ensures Settled(ScanRetry(s, key, j, goal, steady), id, done)
    decreases |s.topic.retry| - j
  {
    if j < |s.topic.retry| && |s.history.deliveries| < goal {
      var m := s.topic.retry[j];
      OccursRemoveAt(s.topic.retry, j, id);
      RemoveAtMembers(s.topic.retry, j);
      if Expired(m, s.history.now) {
        ScanRetrySettles(DropRetry(s, j), key, j, goal, steady, id, done);
      } else if (key, m.id) in s.topic.pending {
        ScanRetrySettles(s, key, j + 1, goal, steady, id, done);
      } else {
        CountSnoc(s.history.deliveries, Delivery(key, m, false), id);
        WaitingAdd(s.topic.pending, (key, m.id), Pending(m, steady(|s.history.deliveries|)), id);
        ScanRetrySettles(Deliver(DropRetry(s, j), key, m, false, steady), key, j, goal, steady, id, done);
      }
    }
  }

  lemma PullSettles(s: System, key: ConsumerKey, max: nat, now: nat, steady: SteadyClock, id: nat, done: nat, maxRetry: nat)
    requires Inv(s, maxRetry) && now >= s.history.now && Settled(s, id, done) && Alive(Tick(s, now), id)
    ensures Settled(Pull(s, key, max, now, steady), id, done)
  {
    hide Inv, ScanLog, ScanRetry, DrainAll, Held;
    var goal := |s.history.deliveries| + max;
    var s1, s2 := OpenPull(s, key, now), PullLog(s, key, max, now, steady);
    DrainAllLeavesCopies(Tick(s, now));
    SameHeld(s, s1, id);
    ScanLogSettles(s1, key, 0, goal, steady, id, done);
    ScanLogStoresNothing(s1, key, 0, goal, steady);
    PullLogKeepsInv(s, key, max, now, steady, maxRetry);
    InvParts(s2, maxRetry);
    ScanLogKeepsTime(s1, key, 0, goal, steady);
    forall m | m in s2.topic.retry && m.id == id
      ensures !Expired(m, s2.history.now)
    {
      CopyIsAlive(s2, m, maxRetry);
    }
    ScanRetrySettles(s2, key, 0, goal, steady, id, done);
  }

  lemma SameHeld(s: System, s': System, id: nat)
    requires s'.topic.pending == s.topic.pending && s'.topic.retry == s.topic.retry && s'.topic.dlq == s.topic.dlq
    requires s'.history.dlqPulled == s.history.dlqPulled
    ensures Held(s', id) == Held(s, id)
  {
  }

  lemma {:induction false} ScanLogKeepsTime(s: System, key: ConsumerKey, j: nat, goal: nat, steady: SteadyClock)
    ensures ScanLog(s, key, j, goal, steady).history.now == s.history.now
    decreases |s.topic.log| - j
  {
    if j < |s.topic.log| && |s.history.deliveries| < goal {
      ScanLogKeepsTime(VisitLog(s, key, s.topic.log[j], steady), key, j + 1, goal, steady);
    }
  }

  lemma PullDlqSettles(s: System, max: nat, id: nat)
    ensures Held(PullDlq(s, max), id) == Held(s, id)
  {
    var count := if max < |s.topic.dlq| then max else |s.topic.dlq|;
    assert s.topic.dlq == s.topic.dlq[..count] + s.topic.dlq[count..];
    OccursConcat(s.topic.dlq[..count], s.topic.dlq[count..], id);
    OccursConcat(s.history.dlqPulled, s.topic.dlq[..count], id);
  }

  lemma ExpiryScanSettles(s: System, now: nat, id: nat, maxRetry: nat)
    requires Inv(s, maxRetry) && Alive(ExpiryScan(s, now), id)
    ensures Held(ExpiryScan(s, now), id) == Held(s, id)
  {
    hide Inv;
    InvParts(s, maxRetry);
    var s' := ExpiryScan(s, now);
    forall x | x in s.topic.pending && x.1 == id
      ensures !Expired(s.topic.pending[x].msg, now)
    {
      CopyIsAlive(s', s.topic.pending[x].msg, maxRetry);
    }
    assert Waiting(s'.topic.pending, id) == Waiting(s.topic.pending, id);
    forall i | 0 <= i < |s.topic.retry| && s.topic.retry[i].id == id
      ensures !Expired(s.topic.retry[i], now)
    {
      CopyIsAlive(s', s.topic.retry[i], maxRetry);
    }
    OccursUnexpired(s.topic.retry, now, id);
  }

  /** The acknowledgements of copies of message `id` in one action. */
  ghost function AcksBy(s: System, a: Action, id: nat): nat {
    if a.Acking? && a.x in s.topic.pending && a.x.1 == id then 1 else 0
  }

  /** The merges of copies of message `id` in one action. */
  ghost function MergesBy(s: System, a: Action, c: Settings, id: nat): nat
    requires Enabled(s, a)
  {
    if a.Retrying? then Merges(Tick(s, a.now), a.order, a.steady, c, id) else 0
  }

  lemma ActionSettles(s: System, a: Action, c: Settings, id: nat, done: nat)
    requires Inv(s, c.maxRetry) && Enabled(s, a) && Settled(s, id, done) && Alive(Do(s, a, c), id) && Alive(s, id)
    ensures Settled(Do(s, a, c), id, done + AcksBy(s, a, id) + MergesBy(s, a, c, id))
  {
    hide Inv, Pull, PullDlq, Ack, RetryScan, ExpiryScan, Held, Merges, Visitable, Settled, Alive;
    match a
    case Publishing(_, _, _, _, _) =>
      SameHeld(s, Do(s, a, c), id);
      SameSettled(s, Do(s, a, c), id, done, 0);
    case Pulling(key, max, now, steady) =>
      AliveBeforePull(s, key, max, now, steady, id);
      PullSettles(s, key, max, now, steady, id, done, c.maxRetry);
    case Acking(x) =>
      AckSettles(s, x, id);
      OthersDeliverNothing(s, a, c);
      SameSettled(s, Do(s, a, c), id, done, AcksBy(s, a, id));
    case PullingDlq(max) =>
      PullDlqSettles(s, max, id);
      OthersDeliverNothing(s, a, c);
      SameSettled(s, Do(s, a, c), id, done, 0);
    case Retrying(order, now, steady) => RetryingSettles(s, order, now, steady, c, id, done);
    case Expiring(now) =>
      ExpiryScanSettles(s, now, id, c.maxRetry);
      OthersDeliverNothing(s, a, c);
      SameSettled(s, Do(s, a, c), id, done, 0);
  }

  lemma SameSettled(s: System, s': System, id: nat, done: nat, more: nat)
    requires Settled(s, id, done) && s'.history.deliveries == s.history.deliveries && Held(s, id) == Held(s', id) + more
    ensures Settled(s', id, done + more)
  {
  }

  lemma AliveBeforePull(s: System, key: ConsumerKey, max: nat, now: nat, steady: SteadyClock, id: nat)
    requires now >= s.history.now && Alive(Pull(s, key, max, now, steady), id)
    ensures Alive(Tick(s, now), id)
  {
    hide Pull;
    OthersStoreNothing(s, Pulling(key, max, now, steady), Settings(0, 0));
    PullIsExclusiveAndExhaustive(s, key, max, now, steady);
  }

  lemma RetryingSettles(s: System, order: seq<CopyKey>, now: nat, steady: int, c: Settings, id: nat, done: nat)
    requires Inv(s, c.maxRetry) && now >= s.history.now && Enumerates(order, s.topic.pending) && Settled(s, id, done)
    requires Visitable(order, Tick(s, now).topic.pending) && Alive(RetryScan(Tick(s, now), order, steady, c), id)
    ensures Settled(RetryScan(Tick(s, now), order, steady, c), id, done + Merges(Tick(s, now), order, steady, c, id))
  {
    hide Inv, RetryScan, Held, Merges;
    TickKeepsInv(s, now, c.maxRetry);
    SameHeld(s, Tick(s, now), id);
    RetryScanDeliversNothing(Tick(s, now), order, steady, c);
    RetryScanSettles(Tick(s, now), order, steady, c, id);
  }

  lemma AckSettles(s: System, x: CopyKey, id: nat)
    ensures Held(s, id) == Held(Ack(s, x), id) + if x in s.topic.pending && x.1 == id then 1 else 0
  {
    if x in s.topic.pending {
      WaitingRemove(s.topic.pending, x, id);
    }
  }

  /** All acknowledgements of copies of message `id` up to state `i`. */
  ghost function AcksIn(run: seq<System>, actions: seq<Action>, c: Settings, i: nat, id: nat): nat
    requires IsRun(run, actions, c) && i < |run|
  {
    if i == 0 then 0 else AcksIn(run, actions, c, i - 1, id) + AcksBy(run[i - 1], actions[i - 1], id)
  }

  ghost function MergesIn(run: seq<System>, actions: seq<Action>, c: Settings, i: nat, id: nat): nat
    requires IsRun(run, actions, c) && i < |run|
  {
    if i == 0 then 0 else MergesIn(run, actions, c, i - 1, id) + MergesBy(run[i - 1], actions[i - 1], c, id)
  }

  lemma AliveBefore(s: System, a: Action, c: Settings, id: nat)
    requires Enabled(s, a) && Alive(Do(s, a, c), id)
    ensures Alive(s, id)
  {
    hide Pull, RetryScan;
    match a
    case Publishing(_, _, _, _, _) =>
    case Pulling(key, max, now, steady) =>
      OthersStoreNothing(s, a, c);
      PullIsExclusiveAndExhaustive(s, key, max, now, steady);
    case Retrying(order, now, steady) => RetryScanDeliversNothing(Tick(s, now), order, steady, c);
    case _ =>
  }

  lemma {:induction false} RunSettles(run: seq<System>, actions: seq<Action>, c: Settings, i: nat, id: nat)
    requires IsRun(run, actions, c) && i < |run| && Alive(run[i], id)
    ensures Settled(run[i], id, AcksIn(run, actions, c, i, id) + MergesIn(run, actions, c, i, id))
  {
    hide Inv, Held, AcksBy, MergesBy;
    if i == 0 {
      NothingHeld(id);
    } else {
      AliveBefore(run[i - 1], actions[i - 1], c, id);
      RunSettles(run, actions, c, i - 1, id);
      RunKeepsInv(run, actions, c, i - 1);
      var done := AcksIn(run, actions, c, i - 1, id) + MergesIn(run, actions, c, i - 1, id);
      ActionSettles(run[i - 1], actions[i - 1], c, id, done);
    }
  }

  /**
   In any run with any number of consumers, the consumers that took an unexpired message from the log are as many as its
   copies (pending, queued for a retry, dead letters, pulled or not), its acknowledgements and its merges together.
  */
  lemma Ledger(run: seq<System>, actions: seq<Action>, c: Settings, i: nat, id: nat)
    requires IsRun(run, actions, c) && i < |run| && Alive(run[i], id)
    ensures |Takers(run[i].history.deliveries, id)| ==
            Held(run[i], id) + AcksIn(run, actions, c, i, id) + MergesIn(run, actions, c, i, id)
  {
    hide Inv, Held, AcksIn, MergesIn, LogInv, CopiesInv, GapsInv, SurvivalInv, Alive;
    RunSettles(run, actions, c, i, id);
    RunKeepsInv(run, actions, c, i);
    InvParts(run[i], c.maxRetry);
    TakesAreTakers(run[i].history.deliveries, id);
  }

  lemma NothingHeld(id: nat)
    ensures Held(EMPTY_SYSTEM, id) == 0
  {
    assert Waiting(map[], id) == {};
  }
}
