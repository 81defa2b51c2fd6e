/** Filters on message sequences. */
module MessageSeqs {
  import opened TopicState

  ghost predicate Increasing(s: seq<Message>) {
    forall i, j :: 0 <= i < j < |s| ==> s[i].id < s[j].id
  }

  ghost predicate Distinct(s: seq<Message>) {
    forall i, j :: 0 <= i < j < |s| ==> s[i].id != s[j].id
  }

  ghost predicate Holds(s: seq<Message>, id: nat) {
    exists j :: 0 <= j < |s| && s[j].id == id
  }

  /** The messages whose ids are not in `gone`, in order. */
  ghost function Remaining(s: seq<Message>, gone: set<nat>): seq<Message> {
    if s == [] then [] else
      Remaining(s[..|s| - 1], gone) + (if s[|s| - 1].id in gone then [] else [s[|s| - 1]])
  }

  lemma RemainingSnoc(s: seq<Message>, m: Message, gone: set<nat>)
    ensures Remaining(s + [m], gone) == Remaining(s, gone) + (if m.id in gone then [] else [m])
  {
  }

  lemma {:induction false} RemainingConcat(a: seq<Message>, b: seq<Message>, gone: set<nat>)
    ensures Remaining(a + b, gone) == Remaining(a, gone) + Remaining(b, gone)
  {
    if b == [] {
      assert a + b == a;
    } else {
      RemainingConcat(a, b[..|b| - 1], gone);
      assert (a + b)[..|a + b| - 1] == a + b[..|b| - 1];
      assert (a + b)[|a + b| - 1] == b[|b| - 1];
    }
  }

  lemma {:induction false} RemainingMembers(s: seq<Message>, gone: set<nat>)
    ensures forall m :: m in Remaining(s, gone) <==> m in s && m.id !in gone
  {
    if s != [] {
      RemainingMembers(s[..|s| - 1], gone);
      assert s == s[..|s| - 1] + [s[|s| - 1]];
    }
  }

  lemma {:induction false} RemainingIncreasing(s: seq<Message>, gone: set<nat>)
    requires Increasing(s)
    ensures Increasing(Remaining(s, gone))
  {
    if s != [] {
      RemainingIncreasing(s[..|s| - 1], gone);
      RemainingMembers(s[..|s| - 1], gone);
      var r := Remaining(s[..|s| - 1], gone);
      assert forall i :: 0 <= i < |r| ==> r[i] in r;
    }
  }

  lemma {:induction false} RemainingTwice(s: seq<Message>, gone: set<nat>, more: set<nat>)
    ensures Remaining(Remaining(s, gone), more) == Remaining(s, gone + more)
  {
    if s != [] {
      RemainingTwice(s[..|s| - 1], gone, more);
      var last := s[|s| - 1];
      if last.id !in gone {
        RemainingSnoc(Remaining(s[..|s| - 1], gone), last, more);
      } else {
        assert Remaining(s, gone) == Remaining(s[..|s| - 1], gone);
      }
    }
  }

  lemma {:induction false} RemainingAll(s: seq<Message>, gone: set<nat>)
    requires forall i :: 0 <= i < |s| ==> s[i].id !in gone
    ensures Remaining(s, gone) == s
  {
    if s != [] {
      RemainingAll(s[..|s| - 1], gone);
    }
  }

  lemma {:induction false} UnexpiredMembers(s: seq<Message>, now: nat)
    ensures forall m :: m in Unexpired(s, now) <==> m in s && !Expired(m, now)
  {
    if s != [] {
      UnexpiredMembers(s[1..], now);
      assert s == [s[0]] + s[1..];
    }
  }

  lemma {:induction false} UnexpiredDistinct(s: seq<Message>, now: nat)
    requires Distinct(s)
    ensures Distinct(Unexpired(s, now))
  {
    if s != [] {
      UnexpiredDistinct(s[1..], now);
      UnexpiredMembers(s[1..], now);
      var r := Unexpired(s[1..], now);
      assert forall i :: 0 <= i < |r| ==> r[i] in r;
    }
  }

  /** Taking the expired messages out is taking their ids out, when ids are distinct. */
  lemma {:induction false} UnexpiredIsRemaining(s: seq<Message>, now: nat, gone: set<nat>)
    requires forall i :: 0 <= i < |s| ==> (s[i].id in gone <==> Expired(s[i], now))
    ensures Unexpired(s, now) == Remaining(s, gone)
  {
    if s != [] {
      UnexpiredIsRemaining(s[1..], now, gone);
      RemainingConcat([s[0]], s[1..], gone);
      assert s == [s[0]] + s[1..];
      RemainingSnoc([], s[0], gone);
      assert [] + [s[0]] == [s[0]];
    }
  }

  lemma {:induction false} WithoutMembers(s: seq<Message>, id: nat)
    ensures forall m :: m in Without(s, id) <==> m in s && m.id != id
  {
    if s != [] {
      WithoutMembers(s[1..], id);
      assert s == [s[0]] + s[1..];
    }
  }

  lemma {:induction false} WithoutDistinct(s: seq<Message>, id: nat)
    requires Distinct(s)
    ensures Distinct(Without(s, id))
  {
    if s != [] {
      WithoutDistinct(s[1..], id);
      WithoutMembers(s[1..], id);
      var r := Without(s[1..], id);
      assert forall i :: 0 <= i < |r| ==> r[i] in r;
    }
  }

  lemma RemoveAtMembers(s: seq<Message>, j: nat)
    requires j < |s|
    ensures forall m :: m in RemoveAt(s, j) ==> m in s
    ensures forall m :: m in s && m != s[j] ==> m in RemoveAt(s, j)
    ensures Distinct(s) ==> Distinct(RemoveAt(s, j)) && !Holds(RemoveAt(s, j), s[j].id)
  {
  }
}

/** What every step keeps: the log, the copies, and who got what. */
module TopicInvariants {
  import opened TopicState
  import opened MessageSeqs

  /** Log and ring together are the stored messages without the purged ones, which had all expired. */
  ghost predicate LogInv(s: System) {
    && Increasing(s.history.stored)
    && (forall i :: 0 <= i < |s.history.stored| ==> StoredInv(s.history.stored[i], s))
    && s.topic.nextId >= 1
    && (forall id :: id in s.history.purged ==> id < s.topic.nextId)
    && s.topic.log + s.topic.ring == Remaining(s.history.stored, s.history.purged)
  }

  ghost predicate StoredInv(m: Message, s: System) {
    && 1 <= m.id < s.topic.nextId
    && m.retryCount == 0
    && (m.id in s.history.purged ==> Expired(m, s.history.now))
  }

  lemma StoreKeepsLogInv(s: System, m: Message, taken: bool)
    requires LogInv(s) && m.id == s.topic.nextId && m.retryCount == 0
    ensures LogInv(Store(s, m, taken))
  {
  }

  lemma DrainOneKeepsLogInv(s: System)
    requires LogInv(s) && s.topic.ring != []
    ensures LogInv(DrainOne(s))
  {
  }

  /** Steps that touch neither log nor ring nor clock. */
  lemma OtherKeepsLogInv(s: System, s': System)
    requires LogInv(s)
    requires s'.topic.log == s.topic.log && s'.topic.ring == s.topic.ring && s'.topic.nextId == s.topic.nextId
    requires s'.history.stored == s.history.stored && s'.history.purged == s.history.purged && s'.history.now == s.history.now
    ensures LogInv(s')
  {
  }

  /** The facts about log and ring that follow. */
  lemma LogFacts(s: System)
    requires LogInv(s)
    ensures Increasing(s.topic.log + s.topic.ring)
    ensures forall m :: m in s.topic.log || m in s.topic.ring ==> m in s.history.stored && m.id !in s.history.purged
    ensures forall m :: m in s.history.stored && m.id !in s.history.purged ==> m in s.topic.log || m in s.topic.ring
  {
    RemainingIncreasing(s.history.stored, s.history.purged);
    RemainingMembers(s.history.stored, s.history.purged);
  }

  /** An id stands for one message. */
  lemma StoredUnique(s: System, a: Message, b: Message)
    requires LogInv(s) && a in s.history.stored && b in s.history.stored && a.id == b.id
    ensures a == b
  {
  }

  lemma ExpiryScanKeepsLogInv(s: System, now: nat)
    requires LogInv(s) && now >= s.history.now
    ensures LogInv(ExpiryScan(s, now))
  {
    var t, h, s' := s.topic, s.history, ExpiryScan(s, now);
    var more := set m | m in t.log && Expired(m, now) :: m.id;
    LogFacts(s);
    forall i | 0 <= i < |h.stored|
      ensures StoredInv(h.stored[i], s')
    {
      assert StoredInv(h.stored[i], s);
      if h.stored[i].id in more {
        var m :| m in t.log && Expired(m, now) && m.id == h.stored[i].id;
        StoredUnique(s, m, h.stored[i]);
      }
    }
    PurgeSplits(t.log, t.ring, now, more);
    RemainingTwice(h.stored, h.purged, more);
  }

  lemma PurgeSplits(log: seq<Message>, ring: seq<Message>, now: nat, more: set<nat>)
    requires Increasing(log + ring) && more == set m | m in log && Expired(m, now) :: m.id
    ensures Unexpired(log, now) + ring == Remaining(log + ring, more)
  {
    var all := log + ring;
    forall i | 0 <= i < |log|
      ensures log[i].id in more <==> Expired(log[i], now)
    {
      assert all[i] == log[i];
      if log[i].id in more {
        var m :| m in log && Expired(m, now) && m.id == log[i].id;
        var k :| 0 <= k < |log| && log[k] == m;
        assert all[k] == m;
      }
    }
    UnexpiredIsRemaining(log, now, more);
    forall i | 0 <= i < |ring|
      ensures ring[i].id !in more
    {
      assert all[|log| + i] == ring[i];
      forall k | 0 <= k < |log|
        ensures log[k].id != ring[i].id
      {
        assert all[k] == log[k];
      }
    }
    RemainingAll(ring, more);
    RemainingConcat(log, ring, more);
  }

  ghost function HandedTo(ds: seq<Delivery>): set<CopyKey> {
    set d | d in ds :: (d.key, d.msg.id)
  }

  lemma HandedSnoc(ds: seq<Delivery>, d: Delivery)
    ensures HandedTo(ds + [d]) == HandedTo(ds) + {(d.key, d.msg.id)}
  {
  }

  /** A copy differs from the stored message in its retry count only, which is within the limit. */
  ghost predicate CopyOf(m: Message, stored: seq<Message>, maxRetry: nat) {
    m.(retryCount := 0) in stored && m.retryCount <= maxRetry
  }

  ghost predicate PendingInv(pending: map<CopyKey, Pending>, stored: seq<Message>, handed: set<CopyKey>, maxRetry: nat) {
    forall x :: x in pending ==>
      pending[x].msg.id == x.1 && CopyOf(pending[x].msg, stored, maxRetry) && x in handed
  }

  ghost predicate RetryInv(retry: seq<Message>, stored: seq<Message>, maxRetry: nat) {
    Distinct(retry) && forall m :: m in retry ==> CopyOf(m, stored, maxRetry)
  }

  /** Only copies that used up all their retries are dead letters. */
  ghost predicate DeadInv(dead: seq<Message>, stored: seq<Message>, maxRetry: nat) {
    forall m :: m in dead ==> CopyOf(m, stored, maxRetry) && m.retryCount == maxRetry
  }

  ghost predicate DeliveriesInv(ds: seq<Delivery>, stored: seq<Message>, maxRetry: nat) {
    forall d :: d in ds ==> CopyOf(d.msg, stored, maxRetry)
  }

  ghost predicate CopiesInv(s: System, maxRetry: nat) {
    && PendingInv(s.topic.pending, s.history.stored, HandedTo(s.history.deliveries), maxRetry)
    && RetryInv(s.topic.retry, s.history.stored, maxRetry)
    && DeadInv(s.topic.dlq, s.history.stored, maxRetry)
    && DeadInv(s.history.dlqPulled, s.history.stored, maxRetry)
    && DeliveriesInv(s.history.deliveries, s.history.stored, maxRetry)
  }

  lemma StoreKeepsCopiesInv(s: System, m: Message, taken: bool, maxRetry: nat)
    requires CopiesInv(s, maxRetry)
    ensures CopiesInv(Store(s, m, taken), maxRetry)
  {
  }

  lemma DeliverKeepsCopiesInv(s: System, key: ConsumerKey, m: Message, fromLog: bool, steady: SteadyClock, maxRetry: nat)
    requires CopiesInv(s, maxRetry) && CopyOf(m, s.history.stored, maxRetry)
    ensures CopiesInv(Deliver(s, key, m, fromLog, steady), maxRetry)
  {
  }

  lemma DropRetryKeepsCopiesInv(s: System, j: nat, maxRetry: nat)
    requires CopiesInv(s, maxRetry) && j < |s.topic.retry|
    ensures CopiesInv(DropRetry(s, j), maxRetry)
  {
  }

  lemma DropPendingKeepsCopiesInv(s: System, x: CopyKey, maxRetry: nat)
    requires CopiesInv(s, maxRetry)
    ensures CopiesInv(DropPending(s, x), maxRetry)
  {
  }

  lemma DeadLetterKeepsCopiesInv(s: System, m: Message, maxRetry: nat)
    requires CopiesInv(s, maxRetry) && CopyOf(m, s.history.stored, maxRetry) && m.retryCount == maxRetry
    ensures CopiesInv(DeadLetter(s, m), maxRetry)
  {
  }

  lemma RequeueKeepsCopiesInv(s: System, m: Message, maxRetry: nat)
    requires CopiesInv(s, maxRetry) && CopyOf(m, s.history.stored, maxRetry) && m.retryCount < maxRetry
    ensures CopiesInv(Requeue(s, m), maxRetry)
  {
    WithoutMembers(s.topic.retry, m.id);
    WithoutDistinct(s.topic.retry, m.id);
    var q := Without(s.topic.retry, m.id);
    assert forall i :: 0 <= i < |q| ==> q[i] in q;
    assert m.(retryCount := m.retryCount + 1).(retryCount := 0) == m.(retryCount := 0);
  }

  lemma PullDlqKeepsCopiesInv(s: System, max: nat, maxRetry: nat)
    requires CopiesInv(s, maxRetry)
    ensures CopiesInv(PullDlq(s, max), maxRetry)
  {
  }

  lemma ExpiryScanKeepsCopiesInv(s: System, now: nat, maxRetry: nat)
    requires CopiesInv(s, maxRetry)
    ensures CopiesInv(ExpiryScan(s, now), maxRetry)
  {
    UnexpiredMembers(s.topic.retry, now);
    UnexpiredDistinct(s.topic.retry, now);
  }

  /** No consumer is ahead of the ring, and what it took from the log lies behind its offset, in order. */
  ghost predicate OffsetsInv(s: System) {
    && (forall key, m :: m in s.topic.ring ==> Offset(s.topic, key) <= m.id)
    && (forall key :: Offset(s.topic, key) <= s.topic.nextId)
    && TakenInv(s.history.deliveries, s.topic)
  }

  ghost predicate TakenInv(ds: seq<Delivery>, t: Topic) {
    && (forall i :: 0 <= i < |ds| && ds[i].fromLog ==> ds[i].msg.id < Offset(t, ds[i].key))
    && (forall i, j :: 0 <= i < j < |ds| && ds[i].fromLog && ds[j].fromLog && ds[i].key == ds[j].key ==>
          ds[i].msg.id < ds[j].msg.id)
  }

  lemma StoreKeepsOffsetsInv(s: System, m: Message, taken: bool)
    requires OffsetsInv(s) && m.id == s.topic.nextId
    ensures OffsetsInv(Store(s, m, taken))
  {
    assert forall key :: Offset(Store(s, m, taken).topic, key) == Offset(s.topic, key);
  }

  lemma DrainOneKeepsOffsetsInv(s: System)
    requires OffsetsInv(s) && s.topic.ring != []
    ensures OffsetsInv(DrainOne(s))
  {
    assert forall key :: Offset(DrainOne(s).topic, key) == Offset(s.topic, key);
  }

  /** An offset may move on to just behind a message of the log. */
  lemma MoveOffsetKeepsOffsetsInv(s: System, key: ConsumerKey, m: Message)
    requires LogInv(s) && OffsetsInv(s) && m in s.topic.log && m.id >= Offset(s.topic, key)
    ensures OffsetsInv(MoveOffset(s, key, m.id + 1))
  {
    var s' := MoveOffset(s, key, m.id + 1);
    assert forall k :: Offset(s'.topic, k) == if k == key then m.id + 1 else Offset(s.topic, k);
    LogBeforeRing(s, m);
  }

  lemma LogBeforeRing(s: System, m: Message)
    requires LogInv(s) && m in s.topic.log
    ensures m.id < s.topic.nextId && forall r :: r in s.topic.ring ==> m.id < r.id
  {
    LogFacts(s);
    var i :| 0 <= i < |s.history.stored| && s.history.stored[i] == m;
    assert StoredInv(s.history.stored[i], s);
    var all := s.topic.log + s.topic.ring;
    var k :| 0 <= k < |s.topic.log| && s.topic.log[k] == m;
    forall r | r in s.topic.ring
      ensures m.id < r.id
    {
      var n :| 0 <= n < |s.topic.ring| && s.topic.ring[n] == r;
      assert all[k] == m && all[|s.topic.log| + n] == r;
    }
  }

  lemma TakeKeepsOffsetsInv(s: System, key: ConsumerKey, m: Message, steady: SteadyClock)
    requires LogInv(s) && OffsetsInv(s) && m in s.topic.log && m.id >= Offset(s.topic, key)
    ensures OffsetsInv(MoveOffset(Deliver(s, key, m, true, steady), key, m.id + 1))
  {
    hide LogInv, TakenInv;
    var s' := MoveOffset(Deliver(s, key, m, true, steady), key, m.id + 1);
    assert forall k :: Offset(s'.topic, k) == if k == key then m.id + 1 else Offset(s.topic, k);
    MoveOffsetKeepsOffsetsInv(s, key, m);
    TakenSnoc(s.history.deliveries, Delivery(key, m, true), s.topic, s'.topic);
  }

  lemma TakenSnoc(ds: seq<Delivery>, d: Delivery, t: Topic, t': Topic)
    requires TakenInv(ds, t) && d.fromLog && d.msg.id >= Offset(t, d.key)
    requires forall k :: Offset(t', k) == if k == d.key then d.msg.id + 1 else Offset(t, k)
    ensures TakenInv(ds + [d], t')
  {
  }

  /** Steps that leave offsets and ring alone and add at most a delivery from the retry queue. */
  lemma OtherKeepsOffsetsInv(s: System, s': System)
    requires OffsetsInv(s)
    requires s'.topic.offsets == s.topic.offsets && s'.topic.ring == s.topic.ring && s'.topic.nextId == s.topic.nextId
    requires s'.history.deliveries == s.history.deliveries
      || exists d: Delivery :: !d.fromLog && s'.history.deliveries == s.history.deliveries + [d]
    ensures OffsetsInv(s')
  {
    assert forall key :: Offset(s'.topic, key) == Offset(s.topic, key);
  }

  /** Whatever a consumer's offset has passed was handed to that consumer, or has expired. */
  ghost predicate GapsInv(s: System) {
    forall key, m :: m in s.history.stored && m.id < Offset(s.topic, key) ==>
      (key, m.id) in HandedTo(s.history.deliveries) || Expired(m, s.history.now)
  }

  lemma StoreKeepsGapsInv(s: System, m: Message, taken: bool)
    requires GapsInv(s) && OffsetsInv(s) && m.id == s.topic.nextId
    ensures GapsInv(Store(s, m, taken))
  {
    assert forall key :: Offset(Store(s, m, taken).topic, key) == Offset(s.topic, key);
  }

  /** Every log message in front of `m` that the consumer's offset has not passed is pending for it. */
  ghost predicate NoGap(s: System, key: ConsumerKey, m: Message) {
    forall e :: e in s.topic.log && Offset(s.topic, key) <= e.id < m.id ==> (key, e.id) in s.topic.pending
  }

  lemma MoveOffsetKeepsGapsInv(s: System, key: ConsumerKey, m: Message, maxRetry: nat)
    requires LogInv(s) && GapsInv(s) && CopiesInv(s, maxRetry)
    requires m in s.topic.log && NoGap(s, key, m)
    requires (key, m.id) in HandedTo(s.history.deliveries) || Expired(m, s.history.now)
    ensures GapsInv(MoveOffset(s, key, m.id + 1))
  {
    hide LogInv, CopiesInv, NoGap, HandedTo;
    var s' := MoveOffset(s, key, m.id + 1);
    assert forall k :: Offset(s'.topic, k) == if k == key then m.id + 1 else Offset(s.topic, k);
    forall e | e in s.history.stored && Offset(s.topic, key) <= e.id <= m.id
      ensures (key, e.id) in HandedTo(s.history.deliveries) || Expired(e, s.history.now)
    {
      PassedIsHanded(s, key, m, e, maxRetry);
    }
  }

  lemma PassedIsHanded(s: System, key: ConsumerKey, m: Message, e: Message, maxRetry: nat)
    requires LogInv(s) && CopiesInv(s, maxRetry)
    requires m in s.topic.log && NoGap(s, key, m)
    requires (key, m.id) in HandedTo(s.history.deliveries) || Expired(m, s.history.now)
    requires e in s.history.stored && Offset(s.topic, key) <= e.id <= m.id
    ensures (key, e.id) in HandedTo(s.history.deliveries) || Expired(e, s.history.now)
  {
    LogFacts(s);
    LogBeforeRing(s, m);
    var i :| 0 <= i < |s.history.stored| && s.history.stored[i] == e;
    assert StoredInv(s.history.stored[i], s);
    if e.id == m.id {
      StoredUnique(s, e, m);
    }
  }

  /** Steps that move no offset, store nothing and forget no delivery. */
  lemma OtherKeepsGapsInv(s: System, s': System)
    requires GapsInv(s)
    requires forall key :: Offset(s'.topic, key) == Offset(s.topic, key)
    requires s'.history.stored == s.history.stored && s'.history.now >= s.history.now
    requires HandedTo(s.history.deliveries) <= HandedTo(s'.history.deliveries)
    ensures GapsInv(s')
  {
  }

  ghost predicate AckedBySome(acked: set<CopyKey>, id: nat) {
    exists x :: x in acked && x.1 == id
  }

  ghost predicate PendingSomewhere(pending: map<CopyKey, Pending>, id: nat) {
    exists x :: x in pending && x.1 == id
  }

  /** A copy is pending, queued for a retry, a dead letter, or was pulled as one. */
  ghost predicate HasCopy(s: System, id: nat) {
    || PendingSomewhere(s.topic.pending, id)
    || Holds(s.topic.retry, id)
    || Holds(s.topic.dlq, id)
    || Holds(s.history.dlqPulled, id)
  }

  ghost predicate Survives(s: System, m: Message) {
    AckedBySome(s.history.acked, m.id) || Expired(m, s.history.now) || HasCopy(s, m.id)
  }

  /** A delivered message that nobody acknowledged and that has not expired still has a copy. */
  ghost predicate SurvivalInv(s: System) {
    forall x, m :: x in HandedTo(s.history.deliveries) && m in s.history.stored && m.id == x.1 ==> Survives(s, m)
  }

  lemma HandedIsStored(s: System, x: CopyKey, maxRetry: nat)
    requires LogInv(s) && CopiesInv(s, maxRetry) && x in HandedTo(s.history.deliveries)
    ensures x.1 < s.topic.nextId
  {
  }

  lemma CopyIsStored(s: System, c: Message, maxRetry: nat)
    requires LogInv(s) && CopyOf(c, s.history.stored, maxRetry)
    ensures c.id < s.topic.nextId
  {
  }

  /** All copies of a message expire with it. */
  lemma CopyExpires(s: System, c: Message, m: Message, maxRetry: nat)
    requires LogInv(s) && CopyOf(c, s.history.stored, maxRetry) && m in s.history.stored && m.id == c.id
    ensures m == c.(retryCount := 0)
  {
  }

  lemma StoreKeepsSurvivalInv(s: System, m: Message, taken: bool, maxRetry: nat)
    requires LogInv(s) && CopiesInv(s, maxRetry) && SurvivalInv(s) && m.id == s.topic.nextId
    ensures SurvivalInv(Store(s, m, taken))
  {
  }

  /** A step that loses only copies of `lost`, after which that message survives, and hands over at most it. */
  lemma SurvivalStep(s: System, s': System, lost: nat)
    requires SurvivalInv(s) && s'.history.stored == s.history.stored && s'.history.now >= s.history.now
    requires s.history.acked <= s'.history.acked
    requires forall x :: x in HandedTo(s'.history.deliveries) ==> x in HandedTo(s.history.deliveries) || x.1 == lost
    requires forall id :: id != lost && HasCopy(s, id) ==> HasCopy(s', id)
    requires forall m :: m in s.history.stored && m.id == lost ==> Survives(s', m)
    ensures SurvivalInv(s')
  {
  }

  lemma DeliverKeepsSurvivalInv(s: System, key: ConsumerKey, m: Message, fromLog: bool, steady: SteadyClock)
    requires SurvivalInv(s)
    ensures SurvivalInv(Deliver(s, key, m, fromLog, steady))
  {
  }

  lemma TakeRetryKeepsSurvivalInv(s: System, key: ConsumerKey, j: nat, steady: SteadyClock)
    requires SurvivalInv(s) && j < |s.topic.retry|
    ensures SurvivalInv(Deliver(DropRetry(s, j), key, s.topic.retry[j], false, steady))
  {
    var m := s.topic.retry[j];
    var s' := Deliver(DropRetry(s, j), key, m, false, steady);
    HandedSnoc(s.history.deliveries, Delivery(key, m, false));
    assert (key, m.id) in s'.topic.pending;
    forall id | id != m.id && HasCopy(s, id)
      ensures HasCopy(s', id)
    {
      if PendingSomewhere(s.topic.pending, id) {
        var x :| x in s.topic.pending && x.1 == id;
        assert x in s'.topic.pending;
      } else if Holds(s.topic.retry, id) {
        HoldsAfterRemoveAt(s.topic.retry, j, id);
      }
    }
    SurvivalStep(s, s', m.id);
  }

  lemma HoldsAfterRemoveAt(q: seq<Message>, j: nat, id: nat)
    requires j < |q| && Holds(q, id) && q[j].id != id
    ensures Holds(RemoveAt(q, j), id)
  {
    var i :| 0 <= i < |q| && q[i].id == id;
    assert RemoveAt(q, j)[if i < j then i else i - 1].id == id;
  }

  lemma DropRetryKeepsSurvivalInv(s: System, j: nat, maxRetry: nat)
    requires LogInv(s) && CopiesInv(s, maxRetry) && SurvivalInv(s)
    requires j < |s.topic.retry| && Expired(s.topic.retry[j], s.history.now)
    ensures SurvivalInv(DropRetry(s, j))
  {
    var c := s.topic.retry[j];
    forall m | m in s.history.stored && m.id == c.id
      ensures Survives(DropRetry(s, j), m)
    {
      CopyExpires(s, c, m, maxRetry);
    }
    forall id | id != c.id && HasCopy(s, id)
      ensures HasCopy(DropRetry(s, j), id)
    {
      if Holds(s.topic.retry, id) {
        HoldsAfterRemoveAt(s.topic.retry, j, id);
      }
    }
    SurvivalStep(s, DropRetry(s, j), c.id);
  }

  /** A pending copy may go when its message survives otherwise. */
  lemma DropPendingKeepsSurvivalInv(s: System, x: CopyKey)
    requires SurvivalInv(s)
    requires forall m :: m in s.history.stored && m.id == x.1 ==> Survives(DropPending(s, x), m)
    ensures SurvivalInv(DropPending(s, x))
  {
  }

  lemma DeadLetterKeepsSurvivalInv(s: System, m: Message)
    requires SurvivalInv(s)
    ensures SurvivalInv(DeadLetter(s, m)) && Holds(DeadLetter(s, m).topic.dlq, m.id)
  {
    var q := s.topic.dlq + [m];
    assert q[|s.topic.dlq|] == m;
    forall id | HasCopy(s, id)
      ensures HasCopy(DeadLetter(s, m), id)
    {
      if Holds(s.topic.dlq, id) {
        var j :| 0 <= j < |s.topic.dlq| && s.topic.dlq[j].id == id;
        assert q[j].id == id;
      }
    }
    SurvivalStep(s, DeadLetter(s, m), m.id);
  }

  /** Merging retry copies of one id leaves one. */
  lemma RequeueKeepsSurvivalInv(s: System, m: Message)
    requires SurvivalInv(s)
    ensures SurvivalInv(Requeue(s, m)) && Holds(Requeue(s, m).topic.retry, m.id)
  {
    var q := Requeue(s, m).topic.retry;
    assert q[|q| - 1].id == m.id;
    WithoutMembers(s.topic.retry, m.id);
    forall id | id != m.id && HasCopy(s, id)
      ensures HasCopy(Requeue(s, m), id)
    {
      if Holds(s.topic.retry, id) {
        var j :| 0 <= j < |s.topic.retry| && s.topic.retry[j].id == id;
        assert s.topic.retry[j] in q;
      }
    }
    SurvivalStep(s, Requeue(s, m), m.id);
  }

  lemma PullDlqKeepsSurvivalInv(s: System, max: nat)
    requires SurvivalInv(s)
    ensures SurvivalInv(PullDlq(s, max))
  {
    var s' := PullDlq(s, max);
    forall id | HasCopy(s, id)
      ensures HasCopy(s', id)
    {
      if Holds(s.topic.dlq, id) {
        var j :| 0 <= j < |s.topic.dlq| && s.topic.dlq[j].id == id;
        assert s.topic.dlq[j] in s'.topic.dlq || s.topic.dlq[j] in s'.history.dlqPulled;
      } else if Holds(s.history.dlqPulled, id) {
        var j :| 0 <= j < |s.history.dlqPulled| && s.history.dlqPulled[j].id == id;
        assert s'.history.dlqPulled[j].id == id;
      }
    }
    forall x, e | x in HandedTo(s'.history.deliveries) && e in s'.history.stored && e.id == x.1
      ensures Survives(s', e)
    {
      assert Survives(s, e);
    }
  }

  lemma ExpiryScanKeepsSurvivalInv(s: System, now: nat, maxRetry: nat)
    requires LogInv(s) && CopiesInv(s, maxRetry) && SurvivalInv(s) && now >= s.history.now
    ensures SurvivalInv(ExpiryScan(s, now))
  {
    var s' := ExpiryScan(s, now);
    forall x, e | x in HandedTo(s'.history.deliveries) && e in s'.history.stored && e.id == x.1
      ensures Survives(s', e)
    {
      assert Survives(s, e);
      if HasCopy(s, e.id) && !Expired(e, now) {
        CopyOutlivesScan(s, e, now, maxRetry);
      }
    }
  }

  lemma CopyOutlivesScan(s: System, m: Message, now: nat, maxRetry: nat)
    requires LogInv(s) && CopiesInv(s, maxRetry) && m in s.history.stored && !Expired(m, now) && HasCopy(s, m.id)
    ensures HasCopy(ExpiryScan(s, now), m.id)
  {
    var s' := ExpiryScan(s, now);
    if PendingSomewhere(s.topic.pending, m.id) {
      var x :| x in s.topic.pending && x.1 == m.id;
      CopyExpires(s, s.topic.pending[x].msg, m, maxRetry);
      assert x in s'.topic.pending;
    } else if Holds(s.topic.retry, m.id) {
      var j :| 0 <= j < |s.topic.retry| && s.topic.retry[j].id == m.id;
      CopyExpires(s, s.topic.retry[j], m, maxRetry);
      UnexpiredMembers(s.topic.retry, now);
      assert s.topic.retry[j] in s'.topic.retry;
    }
  }

  lemma OtherKeepsSurvivalInv(s: System, s': System)
    requires SurvivalInv(s) && s'.history.stored == s.history.stored && s'.history.now >= s.history.now
    requires s'.history.acked == s.history.acked && s'.history.deliveries == s.history.deliveries
    requires s'.topic.pending == s.topic.pending && s'.topic.retry == s.topic.retry
    requires s'.topic.dlq == s.topic.dlq && s'.history.dlqPulled == s.history.dlqPulled
    ensures SurvivalInv(s')
  {
  }
}
