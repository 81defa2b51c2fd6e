/** The operations of a topic keep the invariants, in every run. */
module TopicRuns {
  import opened Bytes
  import opened TopicState
  import opened MessageSeqs
  import opened TopicInvariants

  ghost predicate Inv(s: System, maxRetry: nat) {
    LogInv(s) && CopiesInv(s, maxRetry) && OffsetsInv(s) && GapsInv(s) && SurvivalInv(s)
  }

  lemma InvParts(s: System, maxRetry: nat)
    requires Inv(s, maxRetry)
    ensures LogInv(s) && CopiesInv(s, maxRetry) && OffsetsInv(s) && GapsInv(s) && SurvivalInv(s)
  {
  }

  lemma EmptyInv(maxRetry: nat)
    ensures Inv(EMPTY_SYSTEM, maxRetry)
  {
  }

  lemma PublishKeepsInv(s: System, payload: seq<byte>, now: nat, timestamp: nat, ttl: nat, taken: bool, maxRetry: nat)
    requires Inv(s, maxRetry)
    ensures Inv(Publish(s, payload, now, timestamp, ttl, taken), maxRetry)
  {
    var m := Message(s.topic.nextId, payload, timestamp, 0, if ttl > 0 then now + ttl else 0);
    StoreKeepsLogInv(s, m, taken);
    StoreKeepsCopiesInv(s, m, taken, maxRetry);
    StoreKeepsOffsetsInv(s, m, taken);
    StoreKeepsGapsInv(s, m, taken);
    StoreKeepsSurvivalInv(s, m, taken, maxRetry);
  }

  lemma TickKeepsInv(s: System, now: nat, maxRetry: nat)
    requires Inv(s, maxRetry) && now >= s.history.now
    ensures Inv(Tick(s, now), maxRetry)
  {
  }

  lemma DrainOneKeepsInv(s: System, maxRetry: nat)
    requires Inv(s, maxRetry) && s.topic.ring != []
    ensures Inv(DrainOne(s), maxRetry)
  {
    DrainOneKeepsLogInv(s);
    DrainOneKeepsOffsetsInv(s);
    OtherKeepsGapsInv(s, DrainOne(s));
    OtherKeepsSurvivalInv(s, DrainOne(s));
  }

  lemma {:induction false} DrainAllKeepsInv(s: System, maxRetry: nat)
    requires Inv(s, maxRetry)
    ensures Inv(DrainAll(s), maxRetry)
    ensures DrainAll(s).history == s.history
    decreases |s.topic.ring|
  {
    if s.topic.ring != [] && RECORD_OVERHEAD + |s.topic.ring[0].payload| <= MAX_PAYLOAD_SIZE {
      DrainOneKeepsInv(s, maxRetry);
      DrainAllKeepsInv(DrainOne(s), maxRetry);
    }
  }

  lemma {:induction false} DrainAllLeavesCopies(s: System)
    ensures DrainAll(s).topic.pending == s.topic.pending && DrainAll(s).topic.retry == s.topic.retry
    ensures DrainAll(s).topic.offsets == s.topic.offsets && DrainAll(s).topic.dlq == s.topic.dlq
    ensures DrainAll(s).topic.nextId == s.topic.nextId
    ensures DrainAll(s).topic.log + DrainAll(s).topic.ring == s.topic.log + s.topic.ring
    ensures DrainAll(s).history == s.history
    decreases |s.topic.ring|
  {
    if s.topic.ring != [] && RECORD_OVERHEAD + |s.topic.ring[0].payload| <= MAX_PAYLOAD_SIZE {
      DrainAllLeavesCopies(DrainOne(s));
      assert DrainOne(s).topic.log + DrainOne(s).topic.ring == s.topic.log + s.topic.ring;
    }
  }

  lemma OpenPullKeepsInv(s: System, key: ConsumerKey, now: nat, maxRetry: nat)
    requires Inv(s, maxRetry) && now >= s.history.now
    ensures Inv(OpenPull(s, key, now), maxRetry)
    ensures OpenPull(s, key, now).history == Tick(s, now).history
  {
    hide Inv;
    TickKeepsInv(s, now, maxRetry);
    DrainAllKeepsInv(Tick(s, now), maxRetry);
    var drained := DrainAll(Tick(s, now));
    EnterOffsetKeepsInv(drained, key, maxRetry);
  }

  /** Writing down the offset that already counts changes nothing. */
  lemma EnterOffsetKeepsInv(s: System, key: ConsumerKey, maxRetry: nat)
    requires Inv(s, maxRetry)
    ensures Inv(MoveOffset(s, key, Offset(s.topic, key)), maxRetry)
  {
    var s' := MoveOffset(s, key, Offset(s.topic, key));
    assert forall k :: Offset(s'.topic, k) == Offset(s.topic, k);
    OtherKeepsLogInv(s, s');
    assert TakenInv(s'.history.deliveries, s'.topic);
    OtherKeepsGapsInv(s, s');
    OtherKeepsSurvivalInv(s, s');
  }

  /** The log up to index `j` is behind the consumer's offset or pending for it. */
  ghost predicate Scanned(s: System, key: ConsumerKey, j: nat) {
    forall i :: 0 <= i < j && i < |s.topic.log| ==>
      s.topic.log[i].id < Offset(s.topic, key) || (key, s.topic.log[i].id) in s.topic.pending
  }

  lemma ScannedNoGap(s: System, key: ConsumerKey, j: nat)
    requires LogInv(s) && j < |s.topic.log| && Scanned(s, key, j)
    ensures NoGap(s, key, s.topic.log[j])
  {
    LogFacts(s);
    var all := s.topic.log + s.topic.ring;
    forall e | e in s.topic.log && Offset(s.topic, key) <= e.id < s.topic.log[j].id
      ensures (key, e.id) in s.topic.pending
    {
      var i :| 0 <= i < |s.topic.log| && s.topic.log[i] == e;
      assert all[i] == e && all[j] == s.topic.log[j];
    }
  }

  lemma SkipKeepsInv(s: System, key: ConsumerKey, m: Message, maxRetry: nat)
    requires Inv(s, maxRetry) && m in s.topic.log && NoGap(s, key, m)
    requires m.id >= Offset(s.topic, key) && Expired(m, s.history.now)
    ensures Inv(MoveOffset(s, key, m.id + 1), maxRetry)
  {
    var s' := MoveOffset(s, key, m.id + 1);
    OtherKeepsLogInv(s, s');
    MoveOffsetKeepsOffsetsInv(s, key, m);
    MoveOffsetKeepsGapsInv(s, key, m, maxRetry);
    OtherKeepsSurvivalInv(s, s');
  }

  lemma TakeKeepsInv(s: System, key: ConsumerKey, m: Message, steady: SteadyClock, maxRetry: nat)
    requires Inv(s, maxRetry) && m in s.topic.log && NoGap(s, key, m)
    requires m.id >= Offset(s.topic, key)
    ensures Inv(MoveOffset(Deliver(s, key, m, true, steady), key, m.id + 1), maxRetry)
  {
    var s1 := Deliver(s, key, m, true, steady);
    LogMessageIsCopy(s, m, maxRetry);
    DeliverKeepsCopiesInv(s, key, m, true, steady, maxRetry);
    DeliverKeepsSurvivalInv(s, key, m, true, steady);
    HandedSnoc(s.history.deliveries, Delivery(key, m, true));
    OtherKeepsLogInv(s, s1);
    OtherKeepsGapsInv(s, s1);
    var s2 := MoveOffset(s1, key, m.id + 1);
    OtherKeepsLogInv(s1, s2);
    TakeKeepsOffsetsInv(s, key, m, steady);
    assert NoGap(s1, key, m);
    MoveOffsetKeepsGapsInv(s1, key, m, maxRetry);
    OtherKeepsSurvivalInv(s1, s2);
  }

  lemma LogMessageIsCopy(s: System, m: Message, maxRetry: nat)
    requires LogInv(s) && m in s.topic.log
    ensures CopyOf(m, s.history.stored, maxRetry)
  {
    LogFacts(s);
    var i :| 0 <= i < |s.history.stored| && s.history.stored[i] == m;
    assert StoredInv(s.history.stored[i], s);
    assert m.(retryCount := 0) == m;
  }

  lemma VisitLogKeepsInv(s: System, key: ConsumerKey, j: nat, steady: SteadyClock, maxRetry: nat)
    requires Inv(s, maxRetry) && j < |s.topic.log| && Scanned(s, key, j)
    ensures Inv(VisitLog(s, key, s.topic.log[j], steady), maxRetry)
  {
    hide Inv, LogInv, CopiesInv, GapsInv, SurvivalInv, Scanned, NoGap, Deliver, MoveOffset;
    var m := s.topic.log[j];
    InvParts(s, maxRetry);
    ScannedNoGap(s, key, j);
    if m.id >= Offset(s.topic, key) {
      if Expired(m, s.history.now) {
        SkipKeepsInv(s, key, m, maxRetry);
      } else if (key, m.id) !in s.topic.pending {
        TakeKeepsInv(s, key, m, steady, maxRetry);
      }
    }
  }

  lemma VisitLogScans(s: System, key: ConsumerKey, j: nat, steady: SteadyClock)
    requires j < |s.topic.log| && Scanned(s, key, j)
    ensures Scanned(VisitLog(s, key, s.topic.log[j], steady), key, j + 1)
  {
  }

  lemma {:induction false} ScanLogKeepsInv(s: System, key: ConsumerKey, j: nat, goal: nat, steady: SteadyClock, maxRetry: nat)
    requires Inv(s, maxRetry) && Scanned(s, key, j)
    ensures Inv(ScanLog(s, key, j, goal, steady), maxRetry)
    decreases |s.topic.log| - j
  {
    hide Inv;
    if j < |s.topic.log| && |s.history.deliveries| < goal {
      VisitLogKeepsInv(s, key, j, steady, maxRetry);
      VisitLogScans(s, key, j, steady);
      ScanLogKeepsInv(VisitLog(s, key, s.topic.log[j], steady), key, j + 1, goal, steady, maxRetry);
    }
  }

  lemma DropRetryKeepsInv(s: System, j: nat, maxRetry: nat)
    requires Inv(s, maxRetry) && j < |s.topic.retry| && Expired(s.topic.retry[j], s.history.now)
    ensures Inv(DropRetry(s, j), maxRetry)
  {
    var s' := DropRetry(s, j);
    OtherKeepsLogInv(s, s');
    DropRetryKeepsCopiesInv(s, j, maxRetry);
    OtherKeepsOffsetsInv(s, s');
    OtherKeepsGapsInv(s, s');
    DropRetryKeepsSurvivalInv(s, j, maxRetry);
  }

  lemma TakeRetryKeepsInv(s: System, key: ConsumerKey, j: nat, steady: SteadyClock, maxRetry: nat)
    requires Inv(s, maxRetry) && j < |s.topic.retry|
    ensures Inv(Deliver(DropRetry(s, j), key, s.topic.retry[j], false, steady), maxRetry)
  {
    var m := s.topic.retry[j];
    var s1 := DropRetry(s, j);
    var s2 := Deliver(s1, key, m, false, steady);
    DropRetryKeepsCopiesInv(s, j, maxRetry);
    DeliverKeepsCopiesInv(s1, key, m, false, steady, maxRetry);
    HandedSnoc(s.history.deliveries, Delivery(key, m, false));
    OtherKeepsLogInv(s, s2);
    OtherKeepsOffsetsInv(s, s2);
    OtherKeepsGapsInv(s, s2);
    TakeRetryKeepsSurvivalInv(s, key, j, steady);
  }

  lemma {:induction false} ScanRetryKeepsInv(s: System, key: ConsumerKey, j: nat, goal: nat, steady: SteadyClock, maxRetry: nat)
    requires Inv(s, maxRetry)
    ensures Inv(ScanRetry(s, key, j, goal, steady), maxRetry)
    decreases |s.topic.retry| - j
  {
    hide Inv;
    if j < |s.topic.retry| && |s.history.deliveries| < goal {
      var m := s.topic.retry[j];
      if Expired(m, s.history.now) {
        DropRetryKeepsInv(s, j, maxRetry);
        ScanRetryKeepsInv(DropRetry(s, j), key, j, goal, steady, maxRetry);
      } else if (key, m.id) in s.topic.pending {
        ScanRetryKeepsInv(s, key, j + 1, goal, steady, maxRetry);
      } else {
        TakeRetryKeepsInv(s, key, j, steady, maxRetry);
        ScanRetryKeepsInv(Deliver(DropRetry(s, j), key, m, false, steady), key, j, goal, steady, maxRetry);
      }
    }
  }

  lemma PullLogKeepsInv(s: System, key: ConsumerKey, max: nat, now: nat, steady: SteadyClock, maxRetry: nat)
    requires Inv(s, maxRetry) && now >= s.history.now
    ensures Inv(PullLog(s, key, max, now, steady), maxRetry)
  {
    hide Inv, ScanLog, ScanRetry, DrainAll;
    OpenPullKeepsInv(s, key, now, maxRetry);
    ScanLogKeepsInv(OpenPull(s, key, now), key, 0, |s.history.deliveries| + max, steady, maxRetry);
  }

  lemma PullKeepsInv(s: System, key: ConsumerKey, max: nat, now: nat, steady: SteadyClock, maxRetry: nat)
    requires Inv(s, maxRetry) && now >= s.history.now
    ensures Inv(Pull(s, key, max, now, steady), maxRetry)
  {
    hide Inv, ScanLog, ScanRetry, DrainAll;
    PullLogKeepsInv(s, key, max, now, steady, maxRetry);
    ScanRetryKeepsInv(PullLog(s, key, max, now, steady), key, 0, |s.history.deliveries| + max, steady, maxRetry);
  }

  lemma DropPendingKeepsInv(s: System, x: CopyKey, maxRetry: nat)
    requires Inv(s, maxRetry)
    requires forall m :: m in s.history.stored && m.id == x.1 ==> Survives(DropPending(s, x), m)
    ensures Inv(DropPending(s, x), maxRetry)
  {
    var s' := DropPending(s, x);
    OtherKeepsLogInv(s, s');
    DropPendingKeepsCopiesInv(s, x, maxRetry);
    OtherKeepsOffsetsInv(s, s');
    OtherKeepsGapsInv(s, s');
    DropPendingKeepsSurvivalInv(s, x);
  }

  lemma AckKeepsInv(s: System, x: CopyKey, maxRetry: nat)
    requires Inv(s, maxRetry)
    ensures Inv(Ack(s, x), maxRetry)
  {
    if x in s.topic.pending {
      var s1 := s.(history := s.history.(acked := s.history.acked + {x}));
      OtherKeepsLogInv(s, s1);
      OtherKeepsOffsetsInv(s, s1);
      OtherKeepsGapsInv(s, s1);
      assert x in s1.history.acked;
      SurvivalStep(s, s1, x.1);
      DropPendingKeepsInv(s1, x, maxRetry);
    }
  }

  lemma PullDlqKeepsInv(s: System, max: nat, maxRetry: nat)
    requires Inv(s, maxRetry)
    ensures Inv(PullDlq(s, max), maxRetry)
  {
    OtherKeepsLogInv(s, PullDlq(s, max));
    PullDlqKeepsCopiesInv(s, max, maxRetry);
    OtherKeepsOffsetsInv(s, PullDlq(s, max));
    OtherKeepsGapsInv(s, PullDlq(s, max));
    PullDlqKeepsSurvivalInv(s, max);
  }

  lemma TimeOutKeepsInv(s: System, x: CopyKey, steady: int, c: Settings)
    requires Inv(s, c.maxRetry) && x in s.topic.pending
    ensures Inv(TimeOut(s, x, steady, c), c.maxRetry)
  {
    var p := s.topic.pending[x];
    if steady - p.pullTime >= c.pendingTimeout {
      if Expired(p.msg, s.history.now) {
        forall m | m in s.history.stored && m.id == x.1
          ensures Survives(DropPending(s, x), m)
        {
          CopyExpires(s, p.msg, m, c.maxRetry);
        }
        DropPendingKeepsInv(s, x, c.maxRetry);
      } else if p.msg.retryCount >= c.maxRetry {
        DeadLetterKeepsInv(s, p.msg, c.maxRetry);
        DropPendingKeepsInv(DeadLetter(s, p.msg), x, c.maxRetry);
      } else {
        RequeueKeepsInv(s, p.msg, c.maxRetry);
        DropPendingKeepsInv(Requeue(s, p.msg), x, c.maxRetry);
      }
    }
  }

  lemma DeadLetterKeepsInv(s: System, m: Message, maxRetry: nat)
    requires Inv(s, maxRetry) && CopyOf(m, s.history.stored, maxRetry) && m.retryCount == maxRetry
    ensures Inv(DeadLetter(s, m), maxRetry) && Holds(DeadLetter(s, m).topic.dlq, m.id)
  {
    OtherKeepsLogInv(s, DeadLetter(s, m));
    DeadLetterKeepsCopiesInv(s, m, maxRetry);
    OtherKeepsOffsetsInv(s, DeadLetter(s, m));
    OtherKeepsGapsInv(s, DeadLetter(s, m));
    DeadLetterKeepsSurvivalInv(s, m);
  }

  lemma RequeueKeepsInv(s: System, m: Message, maxRetry: nat)
    requires Inv(s, maxRetry) && CopyOf(m, s.history.stored, maxRetry) && m.retryCount < maxRetry
    ensures Inv(Requeue(s, m), maxRetry) && Holds(Requeue(s, m).topic.retry, m.id)
  {
    OtherKeepsLogInv(s, Requeue(s, m));
    RequeueKeepsCopiesInv(s, m, maxRetry);
    OtherKeepsOffsetsInv(s, Requeue(s, m));
    OtherKeepsGapsInv(s, Requeue(s, m));
    RequeueKeepsSurvivalInv(s, m);
  }

  lemma TimeOutLeavesOthers(s: System, order: seq<CopyKey>, steady: int, c: Settings)
    requires Visitable(order, s.topic.pending) && order != []
    ensures Visitable(order[1..], TimeOut(s, order[0], steady, c).topic.pending)
  {
  }

  lemma {:induction false} RetryScanKeepsInv(s: System, order: seq<CopyKey>, steady: int, c: Settings)
    requires Inv(s, c.maxRetry)
    requires Visitable(order, s.topic.pending)
    ensures Inv(RetryScan(s, order, steady, c), c.maxRetry)
    decreases |order|
  {
    hide Inv;
    if order != [] {
      TimeOutKeepsInv(s, order[0], steady, c);
      TimeOutLeavesOthers(s, order, steady, c);
      RetryScanKeepsInv(TimeOut(s, order[0], steady, c), order[1..], steady, c);
    }
  }

  lemma ExpiryScanKeepsInv(s: System, now: nat, maxRetry: nat)
    requires Inv(s, maxRetry) && now >= s.history.now
    ensures Inv(ExpiryScan(s, now), maxRetry)
  {
    ExpiryScanKeepsLogInv(s, now);
    ExpiryScanKeepsCopiesInv(s, now, maxRetry);
    OtherKeepsOffsetsInv(s, ExpiryScan(s, now));
    OtherKeepsGapsInv(s, ExpiryScan(s, now));
    ExpiryScanKeepsSurvivalInv(s, now, maxRetry);
  }

  /** One operation of a client or a background thread. */
  datatype Action =
    | Publishing(payload: seq<byte>, now: nat, timestamp: nat, ttl: nat, taken: bool)
    | Pulling(key: ConsumerKey, max: nat, now: nat, clock: SteadyClock)
    | Acking(x: CopyKey)
    | PullingDlq(max: nat)
    | Retrying(order: seq<CopyKey>, now: nat, steady: int)
    | Expiring(now: nat)

  /** The clock does not run backwards, and the retry scan visits every pending copy once, in whatever order. */
  ghost predicate Enabled(s: System, a: Action) {
    match a
    case Publishing(_, _, _, _, _) => true
    case Pulling(_, _, now, _) => now >= s.history.now
    case Acking(_) => true
    case PullingDlq(_) => true
    case Retrying(order, now, _) => now >= s.history.now && Enumerates(order, s.topic.pending)
    case Expiring(now) => now >= s.history.now
  }

  ghost predicate Enumerates(order: seq<CopyKey>, pending: map<CopyKey, Pending>) {
    Visitable(order, pending) && forall x :: x in pending ==> x in order
  }

  ghost function Do(s: System, a: Action, c: Settings): System
    requires Enabled(s, a)
  {
    match a
    case Publishing(payload, now, timestamp, ttl, taken) => Publish(s, payload, now, timestamp, ttl, taken)
    case Pulling(key, max, now, steady) => Pull(s, key, max, now, steady)
    case Acking(x) => Ack(s, x)
    case PullingDlq(max) => PullDlq(s, max)
    case Retrying(order, now, steady) => RetryScan(Tick(s, now), order, steady, c)
    case Expiring(now) => ExpiryScan(s, now)
  }

  lemma ActionKeepsInv(s: System, a: Action, c: Settings)
    requires Inv(s, c.maxRetry) && Enabled(s, a)
    ensures Inv(Do(s, a, c), c.maxRetry)
  {
    hide Inv;
    match a
    case Publishing(payload, now, timestamp, ttl, taken) =>
      PublishKeepsInv(s, payload, now, timestamp, ttl, taken, c.maxRetry);
    case Pulling(key, max, now, steady) => PullKeepsInv(s, key, max, now, steady, c.maxRetry);
    case Acking(x) => AckKeepsInv(s, x, c.maxRetry);
    case PullingDlq(max) => PullDlqKeepsInv(s, max, c.maxRetry);
    case Retrying(order, now, steady) =>
      TickKeepsInv(s, now, c.maxRetry);
      RetryScanKeepsInv(Tick(s, now), order, steady, c);
    case Expiring(now) => ExpiryScanKeepsInv(s, now, c.maxRetry);
  }

  /** A run: the states passed through by a sequence of actions, from the empty topic. */
  ghost predicate IsRun(run: seq<System>, actions: seq<Action>, c: Settings) {
    && |run| == |actions| + 1
    && run[0] == EMPTY_SYSTEM
    && forall i :: 0 <= i < |actions| ==> Enabled(run[i], actions[i]) && run[i + 1] == Do(run[i], actions[i], c)
  }

  lemma {:induction false} RunKeepsInv(run: seq<System>, actions: seq<Action>, c: Settings, i: nat)
    requires IsRun(run, actions, c) && i < |run|
    ensures Inv(run[i], c.maxRetry)
  {
    if i == 0 {
      EmptyInv(c.maxRetry);
    } else {
      RunKeepsInv(run, actions, c, i - 1);
      ActionKeepsInv(run[i - 1], actions[i - 1], c);
    }
  }
}
