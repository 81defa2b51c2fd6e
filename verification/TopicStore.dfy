/** Nested maps of pending copies, consumer by consumer, and the flat map of the same copies. */
module PendingMaps {
  import opened TopicState

  type PendingMap = map<ConsumerKey, map<nat, Pending>>

  function Of(pending: PendingMap, key: ConsumerKey): map<nat, Pending> {
    if key in pending then pending[key] else map[]
  }

  ghost function Flat(pending: PendingMap): map<CopyKey, Pending> {
    map key, id | key in pending && id in pending[key] :: (key, id) := pending[key][id]
  }

  lemma FlatMembers(pending: PendingMap, key: ConsumerKey, id: nat)
    ensures (key, id) in Flat(pending) <==> id in Of(pending, key)
    ensures id in Of(pending, key) ==> Flat(pending)[(key, id)] == Of(pending, key)[id]
  {
  }

  lemma FlatKeys(pending: PendingMap)
    ensures forall x :: x in Flat(pending) ==> x.0 in pending
  {
  }

  lemma FlatInsert(pending: PendingMap, key: ConsumerKey, id: nat, p: Pending)
    ensures Flat(pending[key := Of(pending, key)[id := p]]) == Flat(pending)[(key, id) := p]
  {
    var pending' := pending[key := Of(pending, key)[id := p]];
    forall k, i: nat
      ensures (k, i) in Flat(pending') <==> (k, i) in Flat(pending)[(key, id) := p]
      ensures (k, i) in Flat(pending') ==> Flat(pending')[(k, i)] == Flat(pending)[(key, id) := p][(k, i)]
    {
      FlatMembers(pending, k, i);
      FlatMembers(pending', k, i);
    }
  }

  function CopiesOf(key: ConsumerKey, ids: set<nat>): set<CopyKey> {
    set id | id in ids :: (key, id)
  }

  lemma FlatRemove(pending: PendingMap, key: ConsumerKey, ids: set<nat>)
    ensures Flat(pending[key := Of(pending, key) - ids]) == Flat(pending) - CopiesOf(key, ids)
  {
    var pending' := pending[key := Of(pending, key) - ids];
    var gone := CopiesOf(key, ids);
    forall k, i: nat
      ensures (k, i) in Flat(pending') <==> (k, i) in Flat(pending) - gone
      ensures (k, i) in Flat(pending') ==> Flat(pending')[(k, i)] == (Flat(pending) - gone)[(k, i)]
    {
      FlatMembers(pending, k, i);
      FlatMembers(pending', k, i);
    }
  }

  lemma FlatTouch(pending: PendingMap, key: ConsumerKey)
    ensures Flat(pending[key := Of(pending, key)]) == Flat(pending)
  {
    FlatRemove(pending, key, {});
    assert Of(pending, key) - {} == Of(pending, key);
  }

  /** Entries of consumers without pending copies can go. */
  lemma FlatDropEmpty(pending: PendingMap, keys: set<ConsumerKey>)
    requires forall key :: key in keys ==> Of(pending, key) == map[]
    ensures Flat(pending - keys) == Flat(pending)
  {
    forall k, i: nat
      ensures (k, i) in Flat(pending - keys) <==> (k, i) in Flat(pending)
      ensures (k, i) in Flat(pending) ==> Flat(pending - keys)[(k, i)] == Flat(pending)[(k, i)]
    {
      FlatMembers(pending, k, i);
      FlatMembers(pending - keys, k, i);
    }
  }

  /** The copies of one consumer that have not expired. */
  function Live(copies: map<nat, Pending>, now: nat): map<nat, Pending> {
    map id | id in copies && !Expired(copies[id].msg, now) :: copies[id]
  }

  lemma FlatLive(pending: PendingMap, pending': PendingMap, now: nat)
    requires pending'.Keys == pending.Keys && forall key :: key in pending ==> pending'[key] == Live(pending[key], now)
    ensures Flat(pending') == map x | x in Flat(pending) && !Expired(Flat(pending)[x].msg, now) :: Flat(pending)[x]
  {
  }
}

/** The data of one topic as the store keeps it and changes it. */
module TopicStore {
  import opened Bytes
  import opened RecordStream
  import opened RingBuffer
  import opened TopicState
  import opened TopicRuns
  import opened PendingMaps
  import opened RetryOrders
  import R = TopicRecords

  function Messages(deliveries: seq<Delivery>): seq<Message> {
    seq(|deliveries|, i requires 0 <= i < |deliveries| => deliveries[i].msg)
  }

  lemma MessagesSnoc(deliveries: seq<Delivery>, n: nat, d: Delivery)
    requires n <= |deliveries|
    ensures Messages((deliveries + [d])[n..]) == Messages(deliveries[n..]) + [d.msg]
  {
  }

  lemma MessagesLength(deliveries: seq<Delivery>, n: nat)
    requires n <= |deliveries|
    ensures |Messages(deliveries[n..])| == |deliveries| - n
    ensures n == |deliveries| ==> Messages(deliveries[n..]) == []
  {
  }

  lemma ScanLogNext(s: System, key: ConsumerKey, j: nat, goal: nat, steady: SteadyClock)
    ensures ScanLog(s, key, j, goal, steady) ==
      if j < |s.topic.log| && |s.history.deliveries| < goal
      then ScanLog(VisitLog(s, key, s.topic.log[j], steady), key, j + 1, goal, steady) else s
  {
  }

  lemma ScanRetryNext(s: System, key: ConsumerKey, j: nat, goal: nat, steady: SteadyClock)
    ensures ScanRetry(s, key, j, goal, steady) ==
      if j >= |s.topic.retry| || |s.history.deliveries| >= goal then s
      else
        var m := s.topic.retry[j];
        if Expired(m, s.history.now) then ScanRetry(DropRetry(s, j), key, j, goal, steady)
        else if (key, m.id) in s.topic.pending then ScanRetry(s, key, j + 1, goal, steady)
        else ScanRetry(Deliver(DropRetry(s, j), key, m, false, steady), key, j, goal, steady)
  {
  }

  /** The readings of a pull that finds `n` deliveries made. */
  function From(n: nat, readings: nat -> int): SteadyClock {
    k => readings(if k < n then 0 else k - n)
  }

  class TopicData {
    const ringBuffer: SpscRingBuffer
    var messageLog: seq<Message>
    var retryQueue: seq<Message>
    var offsets: map<ConsumerKey, nat>
    var pendingAcks: PendingMap
    var nextMsgId: nat
    var dlq: seq<Message>

    /** The messages whose records are in the ring. */
    ghost var queued: seq<Message>
    ghost var history: History

    ghost predicate Valid()
      reads this, ringBuffer, ringBuffer.buffer
    {
      ringBuffer.Valid() && R.RecordsOf(ringBuffer.records, queued)
    }

    ghost function Value(): System
      reads this
    {
      System(Topic(queued, messageLog, retryQueue, offsets, Flat(pendingAcks), nextMsgId, dlq), history)
    }

    constructor (bufferSize: nat)
      ensures Valid() && Value() == EMPTY_SYSTEM
      ensures fresh(ringBuffer) && fresh(ringBuffer.buffer) && ringBuffer.capacity == bufferSize + 1
    {
      ringBuffer := new SpscRingBuffer(bufferSize);
      messageLog, retryQueue, offsets, pendingAcks, nextMsgId, dlq := [], [], map[], map[], 1, [];
      queued, history := [], EMPTY_SYSTEM.history;
    }

    /** Stores the message when its record fits the ring; its id is used up in any case. */
    method Publish(payload: seq<byte>, now: nat, timestamp: nat, ttl: nat) returns (ok: bool, id: nat)
      requires Valid()
      requires nextMsgId < 0x1_0000_0000_0000_0000 && timestamp < 0x1_0000_0000_0000_0000
      requires now + ttl < 0x1_0000_0000_0000_0000
      requires ringBuffer.HasRoom(RECORD_OVERHEAD + |payload|) ==> RECORD_OVERHEAD + |payload| < 0x1_0000_0000
      modifies this`nextMsgId, this`queued, this`history, ringBuffer`tail, ringBuffer`records, ringBuffer.buffer
      ensures Valid() && id == old(nextMsgId)
      ensures Value() == TopicState.Publish(old(Value()), payload, now, timestamp, ttl, ok)
      ensures ok <==> old(ringBuffer.HasRoom(RECORD_OVERHEAD + |payload|))
    {
      hide R.RecordsOf, Flat, SpscRingBuffer.Valid, SpscRingBuffer.HasRoom, Stream, R.Record;
      id := nextMsgId;
      nextMsgId := nextMsgId + 1;
      var expiresAt := if ttl > 0 then now + ttl else 0;
      ok := Enqueue(Message(id, payload, timestamp, 0, expiresAt));
    }

    method Enqueue(m: Message) returns (ok: bool)
      requires Valid() && (ringBuffer.HasRoom(RECORD_OVERHEAD + |m.payload|) ==> R.Fits(m) && RECORD_OVERHEAD + |m.payload| < 0x1_0000_0000)
      modifies this`queued, this`history, ringBuffer`tail, ringBuffer`records, ringBuffer.buffer
      ensures Valid()
      ensures queued == old(queued) + if ok then [m] else []
      ensures history == if ok then old(history).(stored := old(history).stored + [m]) else old(history)
      ensures ok <==> old(ringBuffer.HasRoom(RECORD_OVERHEAD + |m.payload|))
    {
      hide R.RecordsOf, Flat, SpscRingBuffer.Valid, SpscRingBuffer.HasRoom, Stream, R.Record;
      if ringBuffer.HasRoom(RECORD_OVERHEAD + |m.payload|) {
        R.RecordsOfSnoc(ringBuffer.records, queued, m);
      }
      var serialized := R.Serialize(m);
      ok := ringBuffer.Push(serialized);
      if ok {
        queued := queued + [m];
        history := history.(stored := history.stored + [m]);
      }
    }

    /** Pops records until there is none to be had and appends the messages to the log. */
    method DrainRingBuffer()
      requires Valid()
      modifies this`messageLog, this`queued, ringBuffer`head, ringBuffer`records
      ensures Valid() && Value() == DrainAll(old(Value()))
    {
      hide R.RecordsOf, Flat, SpscRingBuffer.Valid;
      while true
        invariant Valid() && DrainAll(Value()) == DrainAll(old(Value()))
        decreases |ringBuffer.records|
      {
        if ringBuffer.records != [] {
          R.RecordsOfFirst(ringBuffer.records, queued);
        }
        R.RecordsOfLength(ringBuffer.records, queued);
        var data := ringBuffer.Pop();
        if data.None? {
          break;
        }
        var m := R.Deserialize(data.value);
        if m.Some? {
          messageLog := messageLog + [m.value];
        }
        queued := queued[1..];
      }
    }

    /**
     Messages from the log first, in the order of their ids, then retry copies.
     The steady clock is read for each message: `readings(k)` when the k-th is handed out.
    */
    method Pull(key: ConsumerKey, max: nat, now: nat, readings: nat -> int) returns (result: seq<Message>)
      requires Valid()
      modifies this, ringBuffer`head, ringBuffer`records
      ensures Valid()
      ensures Value() == TopicState.Pull(old(Value()), key, max, now, From(|old(history.deliveries)|, readings))
      ensures |old(history.deliveries)| <= |history.deliveries|
      ensures result == Messages(history.deliveries[|old(history.deliveries)|..])
    {
      hide Flat, R.RecordsOf, ScanLog, ScanRetry, DrainAll, SpscRingBuffer.Valid;
      ghost var n := |history.deliveries|;
      history := history.(now := now);
      DrainAllLeavesCopies(Value());
      DrainRingBuffer();
      if key !in offsets || offsets[key] == 0 {
        offsets := offsets[key := 1];
      } else {
        assert offsets == offsets[key := offsets[key]];
      }
      assert Value() == OpenPull(old(Value()), key, now);
      result := PullFromLog(key, max, now, readings, n);
      result := PullFromRetries(key, max, now, readings, n, result);
    }

    method PullFromLog(key: ConsumerKey, max: nat, now: nat, readings: nat -> int, ghost n: nat) returns (result: seq<Message>)
      requires key in offsets && offsets[key] > 0 && now == history.now && n == |history.deliveries|
      modifies this`offsets, this`pendingAcks, this`history
      ensures Value() == ScanLog(old(Value()), key, 0, n + max, From(n, readings))
      ensures n <= |history.deliveries| && result == Messages(history.deliveries[n..])
      ensures history.deliveries[..n] == old(history.deliveries) && now == history.now
    {
      hide Flat, ScanLog, VisitLog, Messages;
      MessagesLength(history.deliveries, n);
      result := [];
      var j := 0;
      while j < |messageLog| && |result| < max
        invariant j <= |messageLog| && key in offsets && offsets[key] > 0 && now == history.now
        invariant n <= |history.deliveries| && result == Messages(history.deliveries[n..])
        invariant history.deliveries[..n] == old(history.deliveries)
        invariant ScanLog(Value(), key, j, n + max, From(n, readings)) == ScanLog(old(Value()), key, 0, n + max, From(n, readings))
      {
        ScanLogNext(Value(), key, j, n + max, From(n, readings));
        MessagesSnoc(history.deliveries, n, Delivery(key, messageLog[j], true));
        MessagesLength(history.deliveries, n);
        assert history.deliveries + [] == history.deliveries;
        var taken := TakeFromLog(key, messageLog[j], now, readings(|result|), From(n, readings));
        if taken {
          result := result + [messageLog[j]];
        }
        j := j + 1;
      }
      MessagesLength(history.deliveries, n);
      ScanLogNext(Value(), key, j, n + max, From(n, readings));
    }

    /** Visits one message of the log: skips it, moves the offset past it, or hands it out. */
    method TakeFromLog(key: ConsumerKey, msg: Message, now: nat, reading: int, ghost steady: SteadyClock) returns (taken: bool)
      requires key in offsets && offsets[key] > 0 && now == history.now && reading == steady(|history.deliveries|)
      modifies this`offsets, this`pendingAcks, this`history
      ensures Value() == VisitLog(old(Value()), key, msg, steady)
      ensures key in offsets && offsets[key] > 0 && now == history.now
      ensures history.deliveries == old(history.deliveries) + if taken then [Delivery(key, msg, true)] else []
    {
      hide Flat;
      taken := false;
      if msg.id >= offsets[key] {
        if Expired(msg, now) {
          offsets := offsets[key := msg.id + 1];
        } else {
          var pending := Touch(key, msg.id);
          if !pending {
            Hand(key, msg, true, reading, steady);
            offsets := offsets[key := msg.id + 1];
            taken := true;
          }
        }
      }
    }

    /** Looks a copy up, which enters an empty map for a new consumer. */
    method Touch(key: ConsumerKey, id: nat) returns (pending: bool)
      modifies this`pendingAcks
      ensures Value() == old(Value()) && key in pendingAcks
      ensures pending <==> (key, id) in Flat(pendingAcks)
    {
      FlatTouch(pendingAcks, key);
      pendingAcks := pendingAcks[key := Of(pendingAcks, key)];
      FlatMembers(pendingAcks, key, id);
      return id in pendingAcks[key];
    }

    /** The copy enters the consumer's pending map. */
    method Hand(key: ConsumerKey, msg: Message, ghost fromLog: bool, reading: int, ghost steady: SteadyClock)
      requires key in pendingAcks && reading == steady(|history.deliveries|)
      modifies this`pendingAcks, this`history
      ensures Value() == Deliver(old(Value()), key, msg, fromLog, steady)
    {
      var id: nat := msg.id;
      FlatInsert(pendingAcks, key, id, Pending(msg, reading));
      var copies: map<nat, Pending> := pendingAcks[key];
      copies := copies[id := Pending(msg, reading)];
      pendingAcks := pendingAcks[key := copies];
      history := history.(deliveries := history.deliveries + [Delivery(key, msg, fromLog)]);
    }

    method PullFromRetries(key: ConsumerKey, max: nat, now: nat, readings: nat -> int, ghost n: nat, found: seq<Message>)
      returns (result: seq<Message>)
      requires now == history.now && n <= |history.deliveries| && found == Messages(history.deliveries[n..])
      modifies this`retryQueue, this`pendingAcks, this`history
      ensures Value() == ScanRetry(old(Value()), key, 0, n + max, From(n, readings))
      ensures n <= |history.deliveries| && result == Messages(history.deliveries[n..])
      ensures history.deliveries[..n] == old(history.deliveries)[..n]
    {
      hide Flat, ScanRetry, Messages;
      result := found;
      var j := 0;
      while j < |retryQueue| && |result| < max
        invariant j <= |retryQueue| && now == history.now
        invariant n <= |history.deliveries| && result == Messages(history.deliveries[n..])
        invariant history.deliveries[..n] == old(history.deliveries)[..n]
        invariant ScanRetry(Value(), key, j, n + max, From(n, readings)) == ScanRetry(old(Value()), key, 0, n + max, From(n, readings))
        decreases |retryQueue| - j
      {
        var msg := retryQueue[j];
        ScanRetryNext(Value(), key, j, n + max, From(n, readings));
        MessagesSnoc(history.deliveries, n, Delivery(key, msg, false));
        MessagesLength(history.deliveries, n);
        if Expired(msg, now) {
          retryQueue := RemoveAt(retryQueue, j);
        } else {
          var pending := Touch(key, msg.id);
          if pending {
            j := j + 1;
          } else {
            var reading := readings(|result|);
            result := result + [msg];
            retryQueue := RemoveAt(retryQueue, j);
            Hand(key, msg, false, reading, From(n, readings));
          }
        }
      }
      MessagesLength(history.deliveries, n);
      ScanRetryNext(Value(), key, j, n + max, From(n, readings));
    }

    /** Takes the copy out of the consumer's pending map, when it is there. */
    method Ack(key: ConsumerKey, id: nat) returns (ok: bool)
      requires Valid()
      modifies this`pendingAcks, this`history
      ensures Valid() && Value() == TopicState.Ack(old(Value()), (key, id))
      ensures ok <==> (key, id) in old(Value()).topic.pending
      ensures Value().topic.pending == old(Value()).topic.pending - {(key, id)}
      ensures history.acked == old(history.acked) + if ok then {(key, id)} else {}
    {
      hide Flat, R.RecordsOf;
      ok := Touch(key, id);
      if ok {
        FlatRemove(pendingAcks, key, {id});
        assert CopiesOf(key, {id}) == {(key, id)};
        pendingAcks := pendingAcks[key := pendingAcks[key] - {id}];
        history := history.(acked := history.acked + {(key, id)});
      }
    }

    /** Takes up to `max` dead letters, oldest first. */
    method PullDlq(max: nat) returns (result: seq<Message>)
      requires Valid()
      modifies this`dlq, this`history
      ensures Valid() && Value() == TopicState.PullDlq(old(Value()), max)
      ensures |result| == (if max < |old(dlq)| then max else |old(dlq)|)
      ensures result + dlq == old(dlq) && history.dlqPulled == old(history.dlqPulled) + result
    {
      hide Flat, R.RecordsOf;
      var count := if max < |dlq| then max else |dlq|;
      result := [];
      for i := 0 to count
        invariant result == dlq[..i]
      {
        result := result + [dlq[i]];
      }
      history := history.(dlqPulled := history.dlqPulled + dlq[..count]);
      dlq := dlq[count..];
    }

    /**
     Every copy that has waited too long for its acknowledgement goes to the retry queue or the dead letters, or is
     dropped when it has expired. `order` records the order in which the copies were visited.
    */
    method ProcessPendingRetries(now: nat, steady: int, c: Settings) returns (ghost order: seq<CopyKey>)
      requires Valid()
      modifies this`retryQueue, this`pendingAcks, this`dlq, this`history
      ensures Valid()
      ensures Enumerates(order, old(Value()).topic.pending)
      ensures Value() == RetryScan(Tick(old(Value()), now), order, steady, c)
    {
      hide Flat, R.RecordsOf, RetryScan, Visitable, SpscRingBuffer.Valid;
      history := history.(now := now);
      order := [];
      ghost var s0 := Value();
      RetryScanNothing(s0, steady, c);
      FlatKeys(pendingAcks);
      var keys := pendingAcks.Keys;
      var emptyKeys := {};
      while keys != {}
        invariant keys <= pendingAcks.Keys && pendingAcks.Keys == old(pendingAcks).Keys
        invariant forall k :: k in keys ==> pendingAcks[k] == old(pendingAcks)[k]
        invariant forall k :: k in emptyKeys ==> Of(pendingAcks, k) == map[] && k !in keys
        invariant Visitable(order, s0.topic.pending)
        invariant forall x :: x in order <==> x in s0.topic.pending && x.0 !in keys
        invariant Value() == RetryScan(s0, order, steady, c) && history.now == now
        decreases keys
      {
        var key :| key in keys;
        forall id: nat
          ensures id in pendingAcks[key] <==> (key, id) in s0.topic.pending
          ensures id in pendingAcks[key] ==> pendingAcks[key][id] == s0.topic.pending[(key, id)]
        {
          FlatMembers(old(pendingAcks), key, id);
        }
        order := RetryConsumer(key, now, steady, c, s0, order);
        keys := keys - {key};
        if pendingAcks[key] == map[] {
          emptyKeys := emptyKeys + {key};
        }
      }
      FlatDropEmpty(pendingAcks, emptyKeys);
      pendingAcks := pendingAcks - emptyKeys;
    }

    method RetryConsumer(
      key: ConsumerKey, now: nat, steady: int, c: Settings, ghost s0: System, ghost before: seq<CopyKey>)
      returns (ghost order: seq<CopyKey>)
      requires key in pendingAcks && history.now == now
      requires Visitable(before, s0.topic.pending) && forall x :: x in before ==> x.0 != key
      requires forall id: nat :: id in pendingAcks[key] <==> (key, id) in s0.topic.pending
      requires forall id: nat :: id in pendingAcks[key] ==> pendingAcks[key][id] == s0.topic.pending[(key, id)]
      requires Value() == RetryScan(s0, before, steady, c)
      modifies this`retryQueue, this`pendingAcks, this`dlq
      ensures Visitable(order, s0.topic.pending)
      ensures forall x :: x in order <==> x in before || (x in s0.topic.pending && x.0 == key)
      ensures Value() == RetryScan(s0, order, steady, c)
      ensures pendingAcks.Keys == old(pendingAcks).Keys
      ensures forall k :: k in pendingAcks && k != key ==> pendingAcks[k] == old(pendingAcks)[k]
    {
      hide Flat, RetryScan, TimeOut, Reschedule;
      var copies := pendingAcks[key];
      var ids := copies.Keys;
      var toRemove: set<nat> := {};
      order := before;
      assert Pruned(Value(), CopiesOf(key, {})) == Value() by {
        assert Flat(pendingAcks) - CopiesOf(key, {}) == Flat(pendingAcks);
      }
      while ids != {}
        invariant ids <= copies.Keys && toRemove !! ids && pendingAcks == old(pendingAcks)
        invariant Visitable(order, s0.topic.pending)
        invariant forall x :: x in order <==> x in before || (x.0 == key && x.1 in copies.Keys - ids)
        invariant Pruned(Value(), CopiesOf(key, toRemove)) == RetryScan(s0, order, steady, c)
        decreases ids
      {
        var id :| id in ids;
        ghost var x: CopyKey := (key, id);
        FlatMembers(pendingAcks, key, id);
        RetryScanSnoc(s0, order, steady, c, x);
        TimeOutLater(Value(), CopiesOf(key, toRemove), x, steady, c);
        assert CopiesOf(key, toRemove + {id}) == CopiesOf(key, toRemove) + {x};
        var timedOut := RetryCopy(copies[id], now, steady, c);
        order := order + [x];
        ids := ids - {id};
        if timedOut {
          toRemove := toRemove + {id};
        }
      }
      FlatRemove(pendingAcks, key, toRemove);
      pendingAcks := pendingAcks[key := copies - toRemove];
    }

    /** Deals with the message of one pending copy. */
    method RetryCopy(p: Pending, now: nat, steady: int, c: Settings) returns (timedOut: bool)
      modifies this`retryQueue, this`dlq
      ensures timedOut <==> steady - p.pullTime >= c.pendingTimeout
      ensures Value() == Reschedule(old(Value()), p, now, steady, c)
    {
      timedOut := steady - p.pullTime >= c.pendingTimeout;
      if timedOut && !Expired(p.msg, now) {
        if p.msg.retryCount >= c.maxRetry {
          dlq := dlq + [p.msg];
        } else {
          retryQueue := Without(retryQueue, p.msg.id);
          retryQueue := retryQueue + [p.msg.(retryCount := p.msg.retryCount + 1)];
        }
      }
    }

    /** Drops expired messages from the log, the retry queue and the pending maps. */
    method ExpireTopicMessages(now: nat)
      requires Valid()
      modifies this`messageLog, this`retryQueue, this`pendingAcks, this`history
      ensures Valid() && Value() == ExpiryScan(old(Value()), now)
    {
      hide Flat, R.RecordsOf, SpscRingBuffer.Valid;
      history := history.(purged := history.purged + (set m | m in messageLog && Expired(m, now) :: m.id), now := now);
      ExpireLog(now);
      retryQueue := Unexpired(retryQueue, now);
      ExpirePending(now);
    }

    /** Rebuilds the log from the messages that have not expired. */
    method ExpireLog(now: nat)
      modifies this`messageLog
      ensures messageLog == Unexpired(old(messageLog), now)
    {
      var newLog := [];
      for j := 0 to |messageLog|
        invariant newLog + Unexpired(messageLog[j..], now) == Unexpired(messageLog, now)
      {
        assert messageLog[j..][1..] == messageLog[j + 1..];
        if !Expired(messageLog[j], now) {
          newLog := newLog + [messageLog[j]];
        }
      }
      messageLog := newLog;
    }

    method ExpirePending(now: nat)
      modifies this`pendingAcks
      ensures var pending := old(Flat(pendingAcks));
              Flat(pendingAcks) == map x | x in pending && !Expired(pending[x].msg, now) :: pending[x]
    {
      hide Flat;
      var keys := pendingAcks.Keys;
      var emptyKeys := {};
      while keys != {}
        invariant keys <= pendingAcks.Keys && pendingAcks.Keys == old(pendingAcks).Keys
        invariant forall k :: k in pendingAcks ==>
          pendingAcks[k] == if k in keys then old(pendingAcks)[k] else Live(old(pendingAcks)[k], now)
        invariant forall k :: k in emptyKeys ==> Of(pendingAcks, k) == map[] && k !in keys
        decreases keys
      {
        var key :| key in keys;
        var copies := pendingAcks[key];
        var ids, toRemove := copies.Keys, {};
        while ids != {}
          invariant ids <= copies.Keys
          invariant toRemove == set id | id in copies && id !in ids && Expired(copies[id].msg, now)
          decreases ids
        {
          var id :| id in ids;
          ids := ids - {id};
          if Expired(copies[id].msg, now) {
            toRemove := toRemove + {id};
          }
        }
        assert copies - toRemove == Live(copies, now);
        pendingAcks := pendingAcks[key := copies - toRemove];
        keys := keys - {key};
        if pendingAcks[key] == map[] {
          emptyKeys := emptyKeys + {key};
        }
      }
      FlatLive(old(pendingAcks), pendingAcks, now);
      FlatDropEmpty(pendingAcks, emptyKeys);
      pendingAcks := pendingAcks - emptyKeys;
    }
  }
}
