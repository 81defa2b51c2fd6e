/** With one consumer, every stored message is in exactly one place until it has been acknowledged or has expired. */
module TopicConservation {
  import opened Bytes
  import opened TopicState
  import opened MessageSeqs
  import opened TopicInvariants
  import opened TopicRuns

  function One(b: bool): nat {
    if b then 1 else 0
  }

  /** In the log, at or past the consumer's offset. */
  ghost predicate Ahead(t: Topic, key: ConsumerKey, id: nat) {
    Holds(t.log, id) && id >= Offset(t, key)
  }

  ghost predicate IsDead(s: System, id: nat) {
    Holds(s.topic.dlq, id) || Holds(s.history.dlqPulled, id)
  }

  /** In how many places message `id` is. */
  ghost function Places(s: System, key: ConsumerKey, id: nat): nat {
    One(Holds(s.topic.ring, id))
    + One(Ahead(s.topic, key, id))
    + One((key, id) in s.topic.pending)
    + One(Holds(s.topic.retry, id))
    + One((key, id) in s.history.acked)
    + One(IsDead(s, id))
  }

  /** In exactly one place, or dropped after it expired. */
  ghost predicate Conserved(s: System, key: ConsumerKey, m: Message) {
    Places(s, key, m.id) == 1 || (Places(s, key, m.id) == 0 && Expired(m, s.history.now))
  }

  ghost predicate SoleInv(s: System, key: ConsumerKey) {
    && (forall m :: m in s.history.stored ==> Conserved(s, key, m))
    && (forall x :: x in s.topic.pending ==> x.0 == key)
    && s.history.acked <= HandedTo(s.history.deliveries)
    && Distinct(s.history.dlqPulled + s.topic.dlq)
  }

  /** The places of `id` are the same before and after. */
  ghost predicate SamePlaces(s: System, s': System, key: ConsumerKey, id: nat) {
    && (Holds(s.topic.ring, id) <==> Holds(s'.topic.ring, id))
    && (Ahead(s.topic, key, id) <==> Ahead(s'.topic, key, id))
    && ((key, id) in s.topic.pending <==> (key, id) in s'.topic.pending)
    && (Holds(s.topic.retry, id) <==> Holds(s'.topic.retry, id))
    && ((key, id) in s.history.acked <==> (key, id) in s'.history.acked)
    && (IsDead(s, id) <==> IsDead(s', id))
  }

  /** A step that moves only copies of one message, and leaves that one conserved. */
  lemma MoveOne(s: System, s': System, key: ConsumerKey, moved: nat)
    requires SoleInv(s, key) && s'.history.stored == s.history.stored && s'.history.now == s.history.now
    requires forall id :: id != moved ==> SamePlaces(s, s', key, id)
    requires forall m :: m in s.history.stored && m.id == moved ==> Conserved(s', key, m)
    ensures forall m :: m in s'.history.stored ==> Conserved(s', key, m)
  {
    forall m | m in s'.history.stored
      ensures Conserved(s', key, m)
    {
      if m.id != moved {
        assert Conserved(s, key, m);
        assert SamePlaces(s, s', key, m.id);
      }
    }
  }

  lemma HoldsSnoc(q: seq<Message>, m: Message, id: nat)
    ensures Holds(q + [m], id) <==> Holds(q, id) || m.id == id
  {
    assert (q + [m])[|q|] == m;
    if Holds(q, id) {
      var j :| 0 <= j < |q| && q[j].id == id;
      assert (q + [m])[j].id == id;
    }
  }

  lemma HoldsMember(q: seq<Message>, id: nat)
    ensures Holds(q, id) <==> exists m :: m in q && m.id == id
  {
  }

  lemma StoreKeepsSole(s: System, key: ConsumerKey, m: Message, taken: bool, maxRetry: nat)
    requires Inv(s, maxRetry) && SoleInv(s, key) && m.id == s.topic.nextId
    ensures SoleInv(Store(s, m, taken), key)
  {
    var s' := Store(s, m, taken);
    NextIdUnused(s, key, maxRetry);
    forall e | e in s'.history.stored
      ensures Conserved(s', key, e)
    {
      if taken {
        HoldsSnoc(s.topic.ring, m, e.id);
      }
      assert Offset(s'.topic, key) == Offset(s.topic, key);
      if e in s.history.stored {
        var i :| 0 <= i < |s.history.stored| && s.history.stored[i] == e;
        assert StoredInv(s.history.stored[i], s);
        assert Conserved(s, key, e);
      }
    }
  }

  lemma NextIdUnused(s: System, key: ConsumerKey, maxRetry: nat)
    requires Inv(s, maxRetry) && SoleInv(s, key)
    ensures Places(s, key, s.topic.nextId) == 0
  {
    var id := s.topic.nextId;
    LogFacts(s);
    HoldsMember(s.topic.log, id);
    HoldsMember(s.topic.ring, id);
    forall m | m in s.history.stored
      ensures m.id < id
    {
      var i :| 0 <= i < |s.history.stored| && s.history.stored[i] == m;
      assert StoredInv(s.history.stored[i], s);
    }
    if (key, id) in HandedTo(s.history.deliveries) {
      HandedIsStored(s, (key, id), maxRetry);
    }
    NoCopyOfNext(s, s.topic.retry, maxRetry);
    NoCopyOfNext(s, s.topic.dlq, maxRetry);
    NoCopyOfNext(s, s.history.dlqPulled, maxRetry);
  }

  lemma NoCopyOfNext(s: System, q: seq<Message>, maxRetry: nat)
    requires LogInv(s) && forall m :: m in q ==> CopyOf(m, s.history.stored, maxRetry)
    ensures !Holds(q, s.topic.nextId)
  {
    forall j | 0 <= j < |q|
      ensures q[j].id != s.topic.nextId
    {
      CopyIsStored(s, q[j], maxRetry);
    }
  }

  lemma HoldsCons(q: seq<Message>, id: nat)
    requires q != [] && Distinct(q)
    ensures Holds(q, id) <==> Holds(q[1..], id) || id == q[0].id
    ensures !Holds(q[1..], q[0].id)
  {
  }

  lemma RingDistinct(s: System)
    requires LogInv(s)
    ensures Distinct(s.topic.ring)
  {
    LogFacts(s);
    var all := s.topic.log + s.topic.ring;
    assert forall i :: 0 <= i < |s.topic.ring| ==> s.topic.ring[i] == all[|s.topic.log| + i];
  }

  lemma DrainOneKeepsSole(s: System, key: ConsumerKey)
    requires LogInv(s) && OffsetsInv(s) && SoleInv(s, key) && s.topic.ring != []
    ensures SoleInv(DrainOne(s), key)
  {
    var s', m := DrainOne(s), s.topic.ring[0];
    RingDistinct(s);
    assert Offset(s'.topic, key) == Offset(s.topic, key) <= m.id;
    forall id: nat
      ensures Holds(s.topic.ring, id) <==> Holds(s'.topic.ring, id) || id == m.id
      ensures Holds(s'.topic.log, id) <==> Holds(s.topic.log, id) || id == m.id
    {
      HoldsCons(s.topic.ring, id);
      HoldsSnoc(s.topic.log, m, id);
    }
    HoldsCons(s.topic.ring, m.id);
    forall e | e in s.history.stored && e.id == m.id
      ensures Conserved(s', key, e)
    {
      assert Conserved(s, key, e);
    }
    MoveOne(s, s', key, m.id);
  }

  lemma TickKeepsSole(s: System, key: ConsumerKey, now: nat)
    requires SoleInv(s, key) && now >= s.history.now
    ensures SoleInv(Tick(s, now), key)
  {
  }

  /** The consumer takes, or skips as expired, the first message at or past its offset. */
  lemma MoveOffsetTakesOne(s: System, key: ConsumerKey, m: Message)
    requires LogInv(s) && SoleInv(s, key)
    requires m in s.topic.log && m.id >= Offset(s.topic, key) && NoGap(s, key, m)
    ensures forall id: nat :: Holds(s.topic.log, id) && Offset(s.topic, key) <= id <= m.id ==> id == m.id
    ensures Places(s, key, m.id) == 1 && Ahead(s.topic, key, m.id)
  {
    LogFacts(s);
    HoldsMember(s.topic.log, m.id);
    assert Conserved(s, key, m);
    forall id: nat | Holds(s.topic.log, id) && Offset(s.topic, key) <= id <= m.id
      ensures id == m.id
    {
      var j :| 0 <= j < |s.topic.log| && s.topic.log[j].id == id;
      assert s.topic.log[j] in s.history.stored;
      assert Conserved(s, key, s.topic.log[j]);
    }
  }

  lemma SkipKeepsSole(s: System, key: ConsumerKey, m: Message)
    requires LogInv(s) && SoleInv(s, key)
    requires m in s.topic.log && m.id >= Offset(s.topic, key) && NoGap(s, key, m) && Expired(m, s.history.now)
    ensures SoleInv(MoveOffset(s, key, m.id + 1), key)
  {
    var s' := MoveOffset(s, key, m.id + 1);
    MoveOffsetTakesOne(s, key, m);
    LogFacts(s);
    forall e | e in s.history.stored && e.id == m.id
      ensures Conserved(s', key, e)
    {
      StoredUnique(s, e, m);
    }
    MoveOne(s, s', key, m.id);
  }

  lemma TakeKeepsSole(s: System, key: ConsumerKey, m: Message, steady: SteadyClock)
    requires LogInv(s) && SoleInv(s, key)
    requires m in s.topic.log && m.id >= Offset(s.topic, key) && NoGap(s, key, m)
    ensures SoleInv(MoveOffset(Deliver(s, key, m, true, steady), key, m.id + 1), key)
  {
    var s' := MoveOffset(Deliver(s, key, m, true, steady), key, m.id + 1);
    MoveOffsetTakesOne(s, key, m);
    HandedSnoc(s.history.deliveries, Delivery(key, m, true));
    MoveOne(s, s', key, m.id);
  }

  lemma VisitKeepsSole(s: System, key: ConsumerKey, m: Message, steady: SteadyClock)
    requires LogInv(s) && SoleInv(s, key) && m in s.topic.log && NoGap(s, key, m)
    ensures SoleInv(VisitLog(s, key, m, steady), key)
  {
    var s' := VisitLog(s, key, m, steady);
    if m.id < Offset(s.topic, key) || ((key, m.id) in s.topic.pending && !Expired(m, s.history.now)) {
      assert s' == s;
    } else if Expired(m, s.history.now) {
      SkipKeepsSole(s, key, m);
      assert s' == MoveOffset(s, key, m.id + 1);
    } else {
      TakeKeepsSole(s, key, m, steady);
      assert s' == MoveOffset(Deliver(s, key, m, true, steady), key, m.id + 1);
    }
  }

  lemma RemoveAtHolds(q: seq<Message>, j: nat, id: nat)
    requires j < |q| && Distinct(q)
    ensures Holds(RemoveAt(q, j), id) <==> Holds(q, id) && id != q[j].id
  {
    RemoveAtMembers(q, j);
    HoldsMember(q, id);
    HoldsMember(RemoveAt(q, j), id);
  }

  lemma TakeRetryKeepsSole(s: System, key: ConsumerKey, j: nat, steady: SteadyClock, maxRetry: nat)
    requires LogInv(s) && CopiesInv(s, maxRetry) && SoleInv(s, key) && j < |s.topic.retry|
    ensures SoleInv(Deliver(DropRetry(s, j), key, s.topic.retry[j], false, steady), key)
  {
    var m := s.topic.retry[j];
    var s' := Deliver(DropRetry(s, j), key, m, false, steady);
    HandedSnoc(s.history.deliveries, Delivery(key, m, false));
    forall id
      ensures Holds(s'.topic.retry, id) <==> Holds(s.topic.retry, id) && id != m.id
    {
      RemoveAtHolds(s.topic.retry, j, id);
    }
    assert Offset(s'.topic, key) == Offset(s.topic, key);
    forall e | e in s.history.stored && e.id == m.id
      ensures Conserved(s', key, e)
    {
      assert Conserved(s, key, e);
      assert Holds(s.topic.retry, m.id);
    }
    MoveOne(s, s', key, m.id);
  }

  lemma DropRetryKeepsSole(s: System, key: ConsumerKey, j: nat, maxRetry: nat)
    requires LogInv(s) && CopiesInv(s, maxRetry) && SoleInv(s, key) && j < |s.topic.retry| && Expired(s.topic.retry[j], s.history.now)
    ensures SoleInv(DropRetry(s, j), key)
  {
    var m, s' := s.topic.retry[j], DropRetry(s, j);
    forall id
      ensures Holds(s'.topic.retry, id) <==> Holds(s.topic.retry, id) && id != m.id
    {
      RemoveAtHolds(s.topic.retry, j, id);
    }
    assert Offset(s'.topic, key) == Offset(s.topic, key);
    forall e | e in s.history.stored && e.id == m.id
      ensures Conserved(s', key, e)
    {
      assert Conserved(s, key, e);
      assert Holds(s.topic.retry, m.id);
      CopyExpires(s, m, e, maxRetry);
    }
    MoveOne(s, s', key, m.id);
  }

  lemma AckKeepsSole(s: System, key: ConsumerKey, id: nat, maxRetry: nat)
    requires LogInv(s) && CopiesInv(s, maxRetry) && SoleInv(s, key)
    ensures SoleInv(Ack(s, (key, id)), key)
  {
    var s' := Ack(s, (key, id));
    assert Offset(s'.topic, key) == Offset(s.topic, key);
    forall e | e in s.history.stored && e.id == id
      ensures Conserved(s', key, e)
    {
      assert Conserved(s, key, e);
    }
    MoveOne(s, s', key, id);
  }

  lemma PullDlqKeepsSole(s: System, key: ConsumerKey, max: nat)
    requires SoleInv(s, key)
    ensures SoleInv(PullDlq(s, max), key)
  {
    hide IsDead;
    var s' := PullDlq(s, max);
    PullDlqMovesDead(s, max);
    forall m | m in s.history.stored
      ensures Conserved(s', key, m)
    {
      PullDlqSamePlaces(s, key, max, m.id);
      assert Conserved(s, key, m);
    }
  }

  lemma PullDlqMovesDead(s: System, max: nat)
    ensures var s' := PullDlq(s, max);
            s'.history.dlqPulled + s'.topic.dlq == s.history.dlqPulled + s.topic.dlq
  {
  }

  lemma PullDlqSamePlaces(s: System, key: ConsumerKey, max: nat, id: nat)
    ensures SamePlaces(s, PullDlq(s, max), key, id)
  {
    PullDlqMovesDead(s, max);
    DeadIsInBoth(s, id);
    DeadIsInBoth(PullDlq(s, max), id);
    assert Offset(PullDlq(s, max).topic, key) == Offset(s.topic, key);
  }

  lemma DeadIsInBoth(s: System, id: nat)
    ensures IsDead(s, id) <==> Holds(s.history.dlqPulled + s.topic.dlq, id)
  {
    HoldsMember(s.topic.dlq, id);
    HoldsMember(s.history.dlqPulled, id);
    HoldsMember(s.history.dlqPulled + s.topic.dlq, id);
  }

  /** A pending copy is dropped: its message had expired, or the copy has just been put elsewhere. */
  lemma DropPendingKeepsSole(s: System, s': System, key: ConsumerKey, m: Message, maxRetry: nat)
    requires LogInv(s) && SoleInv(s, key) && CopyOf(m, s.history.stored, maxRetry) && (key, m.id) in s.topic.pending
    requires
      || (s' == DropPending(s, (key, m.id)) && Expired(m, s.history.now))
      || s' == DropPending(DeadLetter(s, m), (key, m.id))
      || s' == DropPending(Requeue(s, m), (key, m.id))
    ensures forall e :: e in s'.history.stored ==> Conserved(s', key, e)
  {
    assert Offset(s'.topic, key) == Offset(s.topic, key);
    CopyIsStoredOnce(s, key, m, maxRetry);
    forall id: nat
      ensures id != m.id ==> SamePlaces(s, s', key, id)
    {
      HoldsSnoc(s.topic.dlq, m, id);
      RequeuedHolds(s.topic.retry, m, id);
    }
    HoldsSnoc(s.topic.dlq, m, m.id);
    RequeuedHolds(s.topic.retry, m, m.id);
    forall e | e in s.history.stored && e.id == m.id
      ensures Conserved(s', key, e)
    {
      CopyExpires(s, m, e, maxRetry);
    }
    MoveOne(s, s', key, m.id);
  }

  lemma TimeOutKeepsSole(s: System, key: ConsumerKey, x: CopyKey, steady: int, c: Settings)
    requires LogInv(s) && CopiesInv(s, c.maxRetry) && SoleInv(s, key) && x in s.topic.pending
    ensures SoleInv(TimeOut(s, x, steady, c), key)
  {
    var m, s' := s.topic.pending[x].msg, TimeOut(s, x, steady, c);
    assert x == (key, m.id);
    if s' != s {
      CopyIsStoredOnce(s, key, m, c.maxRetry);
      DropPendingKeepsSole(s, s', key, m, c.maxRetry);
      DeadIsInBoth(s, m.id);
      DeadStaysDistinct(s.history.dlqPulled, s.topic.dlq, m);
    }
  }

  lemma CopyIsStoredOnce(s: System, key: ConsumerKey, m: Message, maxRetry: nat)
    requires SoleInv(s, key) && CopyOf(m, s.history.stored, maxRetry) && (key, m.id) in s.topic.pending
    ensures Places(s, key, m.id) == 1 && !Holds(s.topic.retry, m.id) && !IsDead(s, m.id)
  {
  }

  lemma RequeuedHolds(q: seq<Message>, m: Message, id: nat)
    ensures Holds(Without(q, m.id) + [m.(retryCount := m.retryCount + 1)], id) <==> Holds(q, id) || id == m.id
  {
    WithoutMembers(q, m.id);
    HoldsMember(q, id);
    HoldsMember(Without(q, m.id), id);
    HoldsSnoc(Without(q, m.id), m.(retryCount := m.retryCount + 1), id);
  }

  lemma DeadStaysDistinct(pulled: seq<Message>, dlq: seq<Message>, m: Message)
    requires Distinct(pulled + dlq) && !Holds(pulled + dlq, m.id)
    ensures Distinct(pulled + (dlq + [m]))
  {
    assert pulled + (dlq + [m]) == (pulled + dlq) + [m];
  }

  lemma ExpiryScanKeepsSole(s: System, key: ConsumerKey, now: nat, maxRetry: nat)
    requires LogInv(s) && CopiesInv(s, maxRetry) && SoleInv(s, key) && now >= s.history.now
    ensures SoleInv(ExpiryScan(s, now), key)
  {
    var s' := ExpiryScan(s, now);
    assert Offset(s'.topic, key) == Offset(s.topic, key);
    forall e | e in s.history.stored
      ensures Conserved(s', key, e)
    {
      assert Conserved(s, key, e);
      ExpiryScanPlaces(s, key, e, now, maxRetry);
    }
  }

  lemma ExpiryScanPlaces(s: System, key: ConsumerKey, e: Message, now: nat, maxRetry: nat)
    requires LogInv(s) && CopiesInv(s, maxRetry) && e in s.history.stored
    ensures Places(ExpiryScan(s, now), key, e.id) <= Places(s, key, e.id)
    ensures !Expired(e, now) ==> Places(ExpiryScan(s, now), key, e.id) == Places(s, key, e.id)
  {
    hide LogInv, CopiesInv;
    var s' := ExpiryScan(s, now);
    assert Offset(s'.topic, key) == Offset(s.topic, key);
    CopiesExpireWith(s, e, maxRetry);
    UnexpiredHolds(s.topic.log, now, e);
    UnexpiredHolds(s.topic.retry, now, e);
  }

  lemma CopiesExpireWith(s: System, e: Message, maxRetry: nat)
    requires LogInv(s) && CopiesInv(s, maxRetry) && e in s.history.stored
    ensures forall m :: m in s.topic.log && m.id == e.id ==> m.expiresAt == e.expiresAt
    ensures forall m :: m in s.topic.retry && m.id == e.id ==> m.expiresAt == e.expiresAt
    ensures forall x :: x in s.topic.pending && x.1 == e.id ==> s.topic.pending[x].msg.expiresAt == e.expiresAt
  {
    LogFacts(s);
    forall m | m in s.topic.log && m.id == e.id
      ensures m == e
    {
      StoredUnique(s, m, e);
    }
    forall m | m in s.topic.retry && m.id == e.id
      ensures m.expiresAt == e.expiresAt
    {
      CopyExpires(s, m, e, maxRetry);
    }
    forall x | x in s.topic.pending && x.1 == e.id
      ensures s.topic.pending[x].msg.expiresAt == e.expiresAt
    {
      CopyExpires(s, s.topic.pending[x].msg, e, maxRetry);
    }
  }

  lemma UnexpiredHolds(q: seq<Message>, now: nat, e: Message)
    requires forall m :: m in q && m.id == e.id ==> m.expiresAt == e.expiresAt
    ensures Holds(Unexpired(q, now), e.id) <==> Holds(q, e.id) && !Expired(e, now)
  {
    UnexpiredMembers(q, now);
    HoldsMember(q, e.id);
    HoldsMember(Unexpired(q, now), e.id);
    if Holds(q, e.id) && !Expired(e, now) {
      var m :| m in q && m.id == e.id;
      assert m in Unexpired(q, now);
    }
  }

  lemma {:induction false} DrainAllKeepsSole(s: System, key: ConsumerKey, maxRetry: nat)
    requires Inv(s, maxRetry) && SoleInv(s, key)
    ensures SoleInv(DrainAll(s), key)
    decreases |s.topic.ring|
  {
    if s.topic.ring != [] && RECORD_OVERHEAD + |s.topic.ring[0].payload| <= MAX_PAYLOAD_SIZE {
      DrainOneKeepsInv(s, maxRetry);
      DrainOneKeepsSole(s, key);
      DrainAllKeepsSole(DrainOne(s), key, maxRetry);
    }
  }

  lemma EnterOffsetKeepsSole(s: System, key: ConsumerKey)
    requires SoleInv(s, key)
    ensures SoleInv(MoveOffset(s, key, Offset(s.topic, key)), key)
  {
  }

  lemma OpenPullKeepsSole(s: System, key: ConsumerKey, now: nat, maxRetry: nat)
    requires Inv(s, maxRetry) && SoleInv(s, key) && now >= s.history.now
    ensures SoleInv(OpenPull(s, key, now), key)
  {
    TickKeepsInv(s, now, maxRetry);
    TickKeepsSole(s, key, now);
    DrainAllKeepsSole(Tick(s, now), key, maxRetry);
    EnterOffsetKeepsSole(DrainAll(Tick(s, now)), key);
  }

  lemma {:induction false} ScanLogKeepsSole(s: System, key: ConsumerKey, j: nat, goal: nat, steady: SteadyClock)
    requires LogInv(s) && SoleInv(s, key) && Scanned(s, key, j)
    ensures SoleInv(ScanLog(s, key, j, goal, steady), key)
    decreases |s.topic.log| - j
  {
    if j < |s.topic.log| && |s.history.deliveries| < goal {
      var s' := VisitLog(s, key, s.topic.log[j], steady);
      ScannedNoGap(s, key, j);
      VisitKeepsSole(s, key, s.topic.log[j], steady);
      VisitLogScans(s, key, j, steady);
      OtherKeepsLogInv(s, s');
      ScanLogKeepsSole(s', key, j + 1, goal, steady);
    }
  }

  lemma {:induction false} ScanRetryKeepsSole(s: System, key: ConsumerKey, j: nat, goal: nat, steady: SteadyClock, maxRetry: nat)
    requires Inv(s, maxRetry) && SoleInv(s, key)
    ensures SoleInv(ScanRetry(s, key, j, goal, steady), key)
    decreases |s.topic.retry| - j
  {
    if j < |s.topic.retry| && |s.history.deliveries| < goal {
      var m := s.topic.retry[j];
      if Expired(m, s.history.now) {
        DropRetryKeepsInv(s, j, maxRetry);
        DropRetryKeepsSole(s, key, j, maxRetry);
        ScanRetryKeepsSole(DropRetry(s, j), key, j, goal, steady, maxRetry);
      } else if (key, m.id) in s.topic.pending {
        ScanRetryKeepsSole(s, key, j + 1, goal, steady, maxRetry);
      } else {
        TakeRetryKeepsInv(s, key, j, steady, maxRetry);
        TakeRetryKeepsSole(s, key, j, steady, maxRetry);
        ScanRetryKeepsSole(Deliver(DropRetry(s, j), key, m, false, steady), key, j, goal, steady, maxRetry);
      }
    }
  }

  lemma PullLogKeepsSole(s: System, key: ConsumerKey, max: nat, now: nat, steady: SteadyClock, maxRetry: nat)
    requires Inv(s, maxRetry) && SoleInv(s, key) && now >= s.history.now
    ensures SoleInv(PullLog(s, key, max, now, steady), key)
  {
    hide Inv, SoleInv, ScanLog, ScanRetry, DrainAll;
    OpenPullKeepsInv(s, key, now, maxRetry);
    OpenPullKeepsSole(s, key, now, maxRetry);
    InvParts(OpenPull(s, key, now), maxRetry);
    ScanLogKeepsSole(OpenPull(s, key, now), key, 0, |s.history.deliveries| + max, steady);
  }

  lemma PullKeepsSole(s: System, key: ConsumerKey, max: nat, now: nat, steady: SteadyClock, maxRetry: nat)
    requires Inv(s, maxRetry) && SoleInv(s, key) && now >= s.history.now
    ensures SoleInv(Pull(s, key, max, now, steady), key)
  {
    hide Inv, SoleInv, ScanLog, ScanRetry, DrainAll;
    PullLogKeepsInv(s, key, max, now, steady, maxRetry);
    PullLogKeepsSole(s, key, max, now, steady, maxRetry);
    ScanRetryKeepsSole(PullLog(s, key, max, now, steady), key, 0, |s.history.deliveries| + max, steady, maxRetry);
  }

  lemma {:induction false} RetryScanKeepsSole(s: System, key: ConsumerKey, order: seq<CopyKey>, steady: int, c: Settings)
    requires Inv(s, c.maxRetry) && SoleInv(s, key)
    requires Visitable(order, s.topic.pending)
    ensures SoleInv(RetryScan(s, order, steady, c), key)
    decreases |order|
  {
    if order != [] {
      TimeOutKeepsInv(s, order[0], steady, c);
      TimeOutLeavesOthers(s, order, steady, c);
      TimeOutKeepsSole(s, key, order[0], steady, c);
      RetryScanKeepsSole(TimeOut(s, order[0], steady, c), key, order[1..], steady, c);
    }
  }

  /** Only `key` pulls and acknowledges. */
  predicate By(a: Action, key: ConsumerKey) {
    match a
    case Pulling(k, _, _, _) => k == key
    case Acking(x) => x.0 == key
    case _ => true
  }

  lemma ActionKeepsSole(s: System, a: Action, c: Settings, key: ConsumerKey)
    requires Inv(s, c.maxRetry) && SoleInv(s, key) && Enabled(s, a) && By(a, key)
    ensures SoleInv(Do(s, a, c), key)
  {
    match a
    case Publishing(payload, now, timestamp, ttl, taken) =>
      var m := Message(s.topic.nextId, payload, timestamp, 0, if ttl > 0 then now + ttl else 0);
      StoreKeepsSole(s, key, m, taken, c.maxRetry);
    case Pulling(_, max, now, steady) => PullKeepsSole(s, key, max, now, steady, c.maxRetry);
    case Acking(x) => AckKeepsSole(s, key, x.1, c.maxRetry);
    case PullingDlq(max) => PullDlqKeepsSole(s, key, max);
    case Retrying(order, now, steady) =>
      TickKeepsInv(s, now, c.maxRetry);
      TickKeepsSole(s, key, now);
      RetryScanKeepsSole(Tick(s, now), key, order, steady, c);
    case Expiring(now) => ExpiryScanKeepsSole(s, key, now, c.maxRetry);
  }

  /**
   With one consumer key, every stored message is at any time in exactly one place (ring, log ahead of the offset,
   pending, retry queue, acknowledged, dead letter), or was dropped after it expired.
   */
  lemma {:induction false} ExactlyOnePlace(run: seq<System>, actions: seq<Action>, c: Settings, key: ConsumerKey, i: nat)
    requires IsRun(run, actions, c) && i < |run|
    requires forall j :: 0 <= j < |actions| ==> By(actions[j], key)
    ensures SoleInv(run[i], key)
    ensures forall m :: m in run[i].history.stored ==> Conserved(run[i], key, m)
  {
    if i == 0 {
      assert HandedTo([]) == {};
    } else {
      ExactlyOnePlace(run, actions, c, key, i - 1);
      RunKeepsInv(run, actions, c, i - 1);
      ActionKeepsSole(run[i - 1], actions[i - 1], c, key);
    }
  }
}
