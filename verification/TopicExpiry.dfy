/** Expired messages are invisible to a pull, whether or not the background scan has removed them. */
module TopicExpiry {
  import opened Bytes
  import opened Slices
  import opened TopicState
  import opened MessageSeqs
  import opened TopicInvariants
  import opened TopicRuns

  /** `b` is `a` with some messages left out that have expired at `now`. */
  ghost predicate Thinned(a: seq<Message>, b: seq<Message>, now: nat) {
    if a == [] then b == [] else
      || (b != [] && b[0] == a[0] && Thinned(a[1..], b[1..], now))
      || (Expired(a[0], now) && Thinned(a[1..], b, now))
  }

  lemma {:induction false} ThinnedSame(a: seq<Message>, now: nat)
    ensures Thinned(a, a, now)
  {
    if a != [] {
      ThinnedSame(a[1..], now);
    }
  }

  lemma {:induction false} ThinnedUnexpired(a: seq<Message>, before: nat, now: nat)
    requires before <= now
    ensures Thinned(a, Unexpired(a, before), now)
  {
    if a != [] {
      ThinnedUnexpired(a[1..], before, now);
      if !Expired(a[0], before) {
        assert Unexpired(a, before)[1..] == Unexpired(a[1..], before);
      }
    }
  }

  lemma {:induction false} ThinnedAppend(a: seq<Message>, b: seq<Message>, x: seq<Message>, now: nat)
    requires Thinned(a, b, now)
    ensures Thinned(a + x, b + x, now)
    decreases |a|
  {
    if a == [] {
      assert a + x == x && b + x == x;
      ThinnedSame(x, now);
    } else {
      assert (a + x)[1..] == a[1..] + x;
      if b != [] && b[0] == a[0] && Thinned(a[1..], b[1..], now) {
        ThinnedAppend(a[1..], b[1..], x, now);
        assert (b + x)[1..] == b[1..] + x;
      } else {
        ThinnedAppend(a[1..], b, x, now);
      }
    }
  }

  /** Pending copies that `b` lacks have expired. */
  ghost predicate PendingThinned(a: map<CopyKey, Pending>, b: map<CopyKey, Pending>, now: nat) {
    && (forall x :: x in b ==> x in a && a[x] == b[x])
    && (forall x :: x in a ==> x in b || Expired(a[x].msg, now))
  }

  /** The copies of a message agree with `expiry` on when it expires. */
  ghost predicate Labelled(s: System, expiry: map<nat, nat>) {
    && (forall m :: m in s.topic.log ==> Label(m, expiry))
    && (forall m :: m in s.topic.retry ==> Label(m, expiry))
    && (forall x :: x in s.topic.pending ==> s.topic.pending[x].msg.id == x.1 && Label(s.topic.pending[x].msg, expiry))
  }

  ghost predicate Label(m: Message, expiry: map<nat, nat>) {
    m.id in expiry && expiry[m.id] == m.expiresAt
  }

  /** Reachable states can be labelled, since all copies share their message's expiry. */
  lemma InvLabelled(s: System, maxRetry: nat) returns (expiry: map<nat, nat>)
    requires LogInv(s) && CopiesInv(s, maxRetry)
    ensures Labelled(s, expiry)
  {
    LogFacts(s);
    expiry := ExpiryOf(s.history.stored);
    LabelStored(s.history.stored);
    forall m | CopyOf(m, s.history.stored, maxRetry)
      ensures Label(m, expiry)
    {
      assert Label(m.(retryCount := 0), expiry);
    }
    forall m | m in s.topic.log
      ensures Label(m, expiry)
    {
      LogMessageIsCopy(s, m, maxRetry);
    }
  }

  ghost function ExpiryOf(stored: seq<Message>): map<nat, nat> {
    if stored == [] then map[] else ExpiryOf(stored[..|stored| - 1])[stored[|stored| - 1].id := stored[|stored| - 1].expiresAt]
  }

  lemma {:induction false} LabelStored(stored: seq<Message>)
    requires Increasing(stored)
    ensures forall m :: m in stored ==> Label(m, ExpiryOf(stored))
  {
    if stored != [] {
      LabelStored(stored[..|stored| - 1]);
      forall m | m in stored
        ensures Label(m, ExpiryOf(stored))
      {
        var i :| 0 <= i < |stored| && stored[i] == m;
        if i < |stored| - 1 {
          assert m in stored[..|stored| - 1];
        }
      }
    }
  }

  lemma {:induction false} ThinnedMembers(a: seq<Message>, b: seq<Message>, now: nat)
    requires Thinned(a, b, now)
    ensures forall m :: m in b ==> m in a
    decreases |a|
  {
    if a != [] {
      assert a == [a[0]] + a[1..];
      if b != [] && b[0] == a[0] && Thinned(a[1..], b[1..], now) {
        ThinnedMembers(a[1..], b[1..], now);
        assert b == [b[0]] + b[1..];
      } else {
        ThinnedMembers(a[1..], b, now);
      }
    }
  }

  /** Two states with the same deliveries, and the same copies but for expired ones that the second lacks. */
  ghost predicate Alike(s: System, s': System) {
    && s.history.now == s'.history.now
    && s.history.deliveries == s'.history.deliveries
    && Thinned(s.topic.retry, s'.topic.retry, s.history.now)
    && PendingThinned(s.topic.pending, s'.topic.pending, s.history.now)
  }

  /** The consumer stands at the same place among the messages of `rest`. */
  ghost predicate SamePlace(s: System, s': System, key: ConsumerKey, rest: seq<Message>) {
    forall m :: m in rest ==> (m.id >= Offset(s.topic, key) <==> m.id >= Offset(s'.topic, key))
  }

  /** A copy that has not expired is pending in both states or in neither. */
  lemma PendingAgrees(s: System, s': System, x: CopyKey, m: Message, expiry: map<nat, nat>)
    requires Alike(s, s') && Labelled(s, expiry) && Label(m, expiry) && x.1 == m.id && !Expired(m, s.history.now)
    ensures x in s.topic.pending <==> x in s'.topic.pending
  {
  }

  /** A message in both logs is treated the same. */
  lemma VisitAlike(s: System, s': System, key: ConsumerKey, m: Message, steady: SteadyClock, expiry: map<nat, nat>)
    requires Alike(s, s') && Labelled(s, expiry) && Label(m, expiry)
    requires m.id >= Offset(s.topic, key) <==> m.id >= Offset(s'.topic, key)
    ensures Alike(VisitLog(s, key, m, steady), VisitLog(s', key, m, steady))
  {
  }

  /** Visiting a message leaves the place among later ones, in either state alone or in both, as it was. */
  lemma VisitSamePlace(s: System, s': System, key: ConsumerKey, m: Message, steady: SteadyClock, rest: seq<Message>)
    requires SamePlace(s, s', key, rest) && forall e :: e in rest ==> e.id > m.id
    requires m.id >= Offset(s.topic, key) <==> m.id >= Offset(s'.topic, key)
    requires Expired(m, s.history.now) || ((key, m.id) in s.topic.pending <==> (key, m.id) in s'.topic.pending)
    requires s.history.now == s'.history.now
    ensures SamePlace(VisitLog(s, key, m, steady), VisitLog(s', key, m, steady), key, rest)
  {
  }

  /** An expired message that only one log still has is passed without effect on what comes later. */
  lemma SkipAlike(s: System, s': System, key: ConsumerKey, m: Message, steady: SteadyClock, rest: seq<Message>)
    requires Alike(s, s') && SamePlace(s, s', key, rest) && Expired(m, s.history.now) && forall e :: e in rest ==> e.id > m.id
    ensures Alike(VisitLog(s, key, m, steady), s') && SamePlace(VisitLog(s, key, m, steady), s', key, rest)
  {
  }

  lemma VisitLogLabelled(s: System, key: ConsumerKey, m: Message, steady: SteadyClock, expiry: map<nat, nat>)
    requires Labelled(s, expiry) && Label(m, expiry)
    ensures Labelled(VisitLog(s, key, m, steady), expiry)
  {
  }

  /** The two scans stand at `j` and `j'`, with alike states and the same place among what is left of the logs. */
  ghost predicate LogAligned(s: System, s': System, key: ConsumerKey, j: nat, j': nat, expiry: map<nat, nat>) {
    && Labelled(s, expiry) && Alike(s, s')
    && j <= |s.topic.log| && j' <= |s'.topic.log|
    && Increasing(s.topic.log[j..])
    && Thinned(s.topic.log[j..], s'.topic.log[j'..], s.history.now)
    && SamePlace(s, s', key, s'.topic.log[j'..])
  }

  /** Both logs still have the next message. */
  ghost predicate BothNext(rest: seq<Message>, rest': seq<Message>, now: nat) {
    rest != [] && rest' != [] && rest'[0] == rest[0] && Thinned(rest[1..], rest'[1..], now)
  }

  lemma LogStepBoth(s: System, s': System, key: ConsumerKey, j: nat, j': nat, steady: SteadyClock, expiry: map<nat, nat>)
    requires LogAligned(s, s', key, j, j', expiry) && BothNext(s.topic.log[j..], s'.topic.log[j'..], s.history.now)
    ensures s'.topic.log[j'] == s.topic.log[j]
    ensures LogAligned(VisitLog(s, key, s.topic.log[j], steady), VisitLog(s', key, s.topic.log[j], steady), key, j + 1, j' + 1, expiry)
  {
    var rest, rest' := s.topic.log[j..], s'.topic.log[j'..];
    VisitLogLabelled(s, key, rest[0], steady, expiry);
    IncreasingRest(rest);
    StepAlike(s, s', key, steady, rest, rest', expiry);
    AlignedBehind(s, s', VisitLog(s, key, rest[0], steady), VisitLog(s', key, rest[0], steady), key, j, j', expiry);
  }

  lemma AlignedBehind(s: System, s': System, r: System, r': System, key: ConsumerKey, j: nat, j': nat, expiry: map<nat, nat>)
    requires j < |s.topic.log| && j' < |s'.topic.log|
    requires r.topic.log == s.topic.log && r'.topic.log == s'.topic.log && r.history.now == s.history.now
    requires Labelled(r, expiry) && Alike(r, r') && Increasing(s.topic.log[j..][1..])
    requires Thinned(s.topic.log[j..][1..], s'.topic.log[j'..][1..], s.history.now)
    requires SamePlace(r, r', key, s'.topic.log[j'..][1..])
    ensures LogAligned(r, r', key, j + 1, j' + 1, expiry)
  {
  }

  lemma LogStepOne(s: System, s': System, key: ConsumerKey, j: nat, j': nat, steady: SteadyClock, expiry: map<nat, nat>)
    requires LogAligned(s, s', key, j, j', expiry) && j < |s.topic.log|
    requires !BothNext(s.topic.log[j..], s'.topic.log[j'..], s.history.now)
    ensures LogAligned(VisitLog(s, key, s.topic.log[j], steady), s', key, j + 1, j', expiry)
  {
    var rest, rest' := s.topic.log[j..], s'.topic.log[j'..];
    VisitLogLabelled(s, key, rest[0], steady, expiry);
    DropDrop(s.topic.log, j, 1);
    IncreasingRest(rest);
    ThinnedMembers(rest[1..], rest', s.history.now);
    SkipAlike(s, s', key, rest[0], steady, rest');
  }

  /** The log scans of alike states hand out the same messages. */
  lemma {:induction false} ScanLogAlike(
    s: System, s': System, key: ConsumerKey, j: nat, j': nat, goal: nat, steady: SteadyClock, expiry: map<nat, nat>)
    requires LogAligned(s, s', key, j, j', expiry)
    ensures Alike(ScanLog(s, key, j, goal, steady), ScanLog(s', key, j', goal, steady))
    ensures Labelled(ScanLog(s, key, j, goal, steady), expiry)
    decreases |s.topic.log| - j
  {
    if j < |s.topic.log| && |s.history.deliveries| < goal {
      var m := s.topic.log[j];
      if BothNext(s.topic.log[j..], s'.topic.log[j'..], s.history.now) {
        LogStepBoth(s, s', key, j, j', steady, expiry);
        ScanLogAlike(VisitLog(s, key, m, steady), VisitLog(s', key, m, steady), key, j + 1, j' + 1, goal, steady, expiry);
      } else {
        LogStepOne(s, s', key, j, j', steady, expiry);
        ScanLogAlike(VisitLog(s, key, m, steady), s', key, j + 1, j', goal, steady, expiry);
      }
    }
  }

  lemma IncreasingRest(rest: seq<Message>)
    requires Increasing(rest) && rest != []
    ensures Increasing(rest[1..]) && forall e :: e in rest[1..] ==> e.id > rest[0].id
  {
  }

  lemma StepAlike(s: System, s': System, key: ConsumerKey, steady: SteadyClock, rest: seq<Message>, rest': seq<Message>, expiry: map<nat, nat>)
    requires Labelled(s, expiry) && Alike(s, s') && rest != [] && rest' != [] && rest'[0] == rest[0]
    requires Label(rest[0], expiry) && SamePlace(s, s', key, rest')
    requires (forall e :: e in rest[1..] ==> e.id > rest[0].id) && Thinned(rest[1..], rest'[1..], s.history.now)
    ensures Alike(VisitLog(s, key, rest[0], steady), VisitLog(s', key, rest[0], steady))
    ensures SamePlace(VisitLog(s, key, rest[0], steady), VisitLog(s', key, rest[0], steady), key, rest'[1..])
  {
    var m := rest[0];
    assert m in rest' && forall e :: e in rest'[1..] ==> e in rest';
    ThinnedMembers(rest[1..], rest'[1..], s.history.now);
    VisitAlike(s, s', key, m, steady, expiry);
    if !Expired(m, s.history.now) {
      PendingAgrees(s, s', (key, m.id), m, expiry);
    }
    VisitSamePlace(s, s', key, m, steady, rest'[1..]);
  }

  /** The two scans of the retry queues stand at `j` and `j'`. */
  ghost predicate RetryAligned(s: System, s': System, j: nat, j': nat, expiry: map<nat, nat>) {
    && Labelled(s, expiry)
    && s.history.now == s'.history.now && s.history.deliveries == s'.history.deliveries
    && PendingThinned(s.topic.pending, s'.topic.pending, s.history.now)
    && j <= |s.topic.retry| && j' <= |s'.topic.retry|
    && Thinned(s.topic.retry[j..], s'.topic.retry[j'..], s.history.now)
  }

  lemma RetryDropBoth(s: System, s': System, j: nat, j': nat, expiry: map<nat, nat>)
    requires RetryAligned(s, s', j, j', expiry) && BothNext(s.topic.retry[j..], s'.topic.retry[j'..], s.history.now)
    ensures s'.topic.retry[j'] == s.topic.retry[j]
    ensures RetryAligned(DropRetry(s, j), DropRetry(s', j'), j, j', expiry)
    ensures RetryAligned(s, s', j + 1, j' + 1, expiry)
  {
  }

  lemma RetryDropOne(s: System, s': System, j: nat, j': nat, expiry: map<nat, nat>)
    requires RetryAligned(s, s', j, j', expiry) && j < |s.topic.retry|
    requires !BothNext(s.topic.retry[j..], s'.topic.retry[j'..], s.history.now)
    ensures Expired(s.topic.retry[j], s.history.now) && RetryAligned(DropRetry(s, j), s', j, j', expiry)
  {
  }

  lemma RetryDeliver(s: System, s': System, j: nat, j': nat, key: ConsumerKey, m: Message, steady: SteadyClock, expiry: map<nat, nat>)
    requires RetryAligned(s, s', j, j', expiry) && Label(m, expiry)
    ensures RetryAligned(Deliver(s, key, m, false, steady), Deliver(s', key, m, false, steady), j, j', expiry)
  {
  }

  /** The retry scans of alike states hand out the same messages. */
  lemma {:induction false} ScanRetryAlike(
    s: System, s': System, key: ConsumerKey, j: nat, j': nat, goal: nat, steady: SteadyClock, expiry: map<nat, nat>)
    requires RetryAligned(s, s', j, j', expiry)
    ensures ScanRetry(s, key, j, goal, steady).history.deliveries == ScanRetry(s', key, j', goal, steady).history.deliveries
    decreases |s.topic.retry| - j, |s'.topic.retry| - j'
  {
    if j < |s.topic.retry| && |s.history.deliveries| < goal {
      var m := s.topic.retry[j];
      if BothNext(s.topic.retry[j..], s'.topic.retry[j'..], s.history.now) {
        RetryDropBoth(s, s', j, j', expiry);
        if Expired(m, s.history.now) {
          ScanRetryAlike(DropRetry(s, j), DropRetry(s', j'), key, j, j', goal, steady, expiry);
        } else {
          RetryPendingAgrees(s, s', (key, m.id), m, expiry);
          if (key, m.id) in s.topic.pending {
            ScanRetryAlike(s, s', key, j + 1, j' + 1, goal, steady, expiry);
          } else {
            RetryDeliver(DropRetry(s, j), DropRetry(s', j'), j, j', key, m, steady, expiry);
            ScanRetryAlike(
              Deliver(DropRetry(s, j), key, m, false, steady), Deliver(DropRetry(s', j'), key, m, false, steady),
              key, j, j', goal, steady, expiry);
          }
        }
      } else {
        RetryDropOne(s, s', j, j', expiry);
        ScanRetryAlike(DropRetry(s, j), s', key, j, j', goal, steady, expiry);
      }
    }
  }

  lemma RetryPendingAgrees(s: System, s': System, x: CopyKey, m: Message, expiry: map<nat, nat>)
    requires Labelled(s, expiry) && PendingThinned(s.topic.pending, s'.topic.pending, s.history.now)
    requires Label(m, expiry) && x.1 == m.id && !Expired(m, s.history.now)
    ensures x in s.topic.pending <==> x in s'.topic.pending
  {
  }

  /** State `s'` is `s` with some expired messages and copies removed. */
  ghost predicate Purged(s: System, s': System, now: nat) {
    && s'.topic.ring == s.topic.ring
    && s'.topic.offsets == s.topic.offsets
    && s'.history.deliveries == s.history.deliveries
    && Thinned(s.topic.log, s'.topic.log, now)
    && Thinned(s.topic.retry, s'.topic.retry, now)
    && PendingThinned(s.topic.pending, s'.topic.pending, now)
  }

  /** Both drains append the same messages. */
  lemma {:induction false} DrainAllAppends(s: System, s': System, now: nat)
    requires s'.topic.ring == s.topic.ring && Thinned(s.topic.log, s'.topic.log, now)
    ensures Thinned(DrainAll(s).topic.log, DrainAll(s').topic.log, now)
    decreases |s.topic.ring|
  {
    if s.topic.ring != [] && RECORD_OVERHEAD + |s.topic.ring[0].payload| <= MAX_PAYLOAD_SIZE {
      ThinnedAppend(s.topic.log, s'.topic.log, [s.topic.ring[0]], now);
      DrainAllAppends(DrainOne(s), DrainOne(s'), now);
    }
  }

  /** Whatever has been purged of what has expired by then, a pull hands out the same messages. */
  lemma PurgeIsInvisible(s: System, s': System, key: ConsumerKey, max: nat, now: nat, steady: SteadyClock, maxRetry: nat)
    requires Inv(s, maxRetry) && now >= s.history.now && Purged(s, s', now)
    ensures Pull(s', key, max, now, steady).history.deliveries == Pull(s, key, max, now, steady).history.deliveries
  {
    hide ScanLog, ScanRetry, DrainAll, LogAligned;
    var goal := |s.history.deliveries| + max;
    OpenPullKeepsInv(s, key, now, maxRetry);
    var expiry := InvLabelled(OpenPull(s, key, now), maxRetry);
    OpenAlike(s, s', key, now);
    OpenAligned(s, s', key, now, expiry);
    ScanLogAlike(OpenPull(s, key, now), OpenPull(s', key, now), key, 0, 0, goal, steady, expiry);
    var r, r' := PullLog(s, key, max, now, steady), PullLog(s', key, max, now, steady);
    assert r.topic.retry[0..] == r.topic.retry && r'.topic.retry[0..] == r'.topic.retry;
    ScanRetryAlike(r, r', key, 0, 0, goal, steady, expiry);
  }

  lemma OpenAligned(s: System, s': System, key: ConsumerKey, now: nat, expiry: map<nat, nat>)
    requires var o, o' := OpenPull(s, key, now), OpenPull(s', key, now);
             && LogInv(o) && Labelled(o, expiry) && o.history.now == now
             && Alike(o, o') && Thinned(o.topic.log, o'.topic.log, now) && SamePlace(o, o', key, o'.topic.log)
    ensures LogAligned(OpenPull(s, key, now), OpenPull(s', key, now), key, 0, 0, expiry)
  {
    var o, o' := OpenPull(s, key, now), OpenPull(s', key, now);
    LogIncreasing(o);
    assert o.topic.log[0..] == o.topic.log && o'.topic.log[0..] == o'.topic.log;
  }

  lemma OpenAlike(s: System, s': System, key: ConsumerKey, now: nat)
    requires Purged(s, s', now)
    ensures var o, o' := OpenPull(s, key, now), OpenPull(s', key, now);
            Alike(o, o') && Thinned(o.topic.log, o'.topic.log, now) && SamePlace(o, o', key, o'.topic.log)
  {
    DrainAllLeavesCopies(Tick(s, now));
    DrainAllLeavesCopies(Tick(s', now));
    DrainAllAppends(Tick(s, now), Tick(s', now), now);
  }

  lemma LogIncreasing(s: System)
    requires LogInv(s)
    ensures Increasing(s.topic.log)
  {
    LogFacts(s);
    var all := s.topic.log + s.topic.ring;
    assert forall i :: 0 <= i < |s.topic.log| ==> s.topic.log[i] == all[i];
  }

  /** In particular the background scan, at any time before, makes no difference to what a pull returns. */
  lemma ExpiryScanIsInvisible(run: seq<System>, actions: seq<Action>, c: Settings, i: nat,
                              key: ConsumerKey, max: nat, before: nat, now: nat, steady: SteadyClock)
    requires IsRun(run, actions, c) && i < |run| && run[i].history.now <= before <= now
    ensures Pull(ExpiryScan(run[i], before), key, max, now, steady).history.deliveries
      == Pull(run[i], key, max, now, steady).history.deliveries
  {
    var s := run[i];
    RunKeepsInv(run, actions, c, i);
    ThinnedUnexpired(s.topic.log, before, now);
    ThinnedUnexpired(s.topic.retry, before, now);
    PurgeIsInvisible(s, ExpiryScan(s, before), key, max, now, steady, c.maxRetry);
  }
}
