/** What the two background scans of a topic leave behind, copy by copy. */
module TopicScans {
  import opened TopicState
  import opened MessageSeqs
  import opened TopicRuns
  import opened RetryOrders

  /** The copy has waited for its acknowledgement for too long. */
  predicate Due(p: Pending, steady: int, c: Settings) {
    steady >= p.pullTime + c.pendingTimeout
  }

  predicate Retried(p: Pending, now: nat, steady: int, c: Settings) {
    Due(p, steady, c) && !Expired(p.msg, now) && p.msg.retryCount < c.maxRetry
  }

  predicate Exhausted(p: Pending, now: nat, steady: int, c: Settings) {
    Due(p, steady, c) && !Expired(p.msg, now) && p.msg.retryCount >= c.maxRetry
  }

  ghost predicate OwnIds(pending: map<CopyKey, Pending>) {
    forall x :: x in pending ==> pending[x].msg.id == x.1
  }

  /** What is pending after the scan: what was not visited or not due. */
  ghost predicate PendingScanned(before: System, after: System, order: seq<CopyKey>, steady: int, c: Settings) {
    && (forall x :: x in after.topic.pending <==>
          x in before.topic.pending && !(x in order && Due(before.topic.pending[x], steady, c)))
    && (forall x :: x in after.topic.pending ==> after.topic.pending[x] == before.topic.pending[x])
  }

  /** The dead letters after the scan: those before, and behind them the visited copies without retries left. */
  ghost predicate DeadScanned(before: System, after: System, order: seq<CopyKey>, steady: int, c: Settings) {
    && before.topic.dlq <= after.topic.dlq
    && (forall x :: x in order && x in before.topic.pending && Exhausted(before.topic.pending[x], before.history.now, steady, c) ==>
          before.topic.pending[x].msg in after.topic.dlq[|before.topic.dlq|..])
    && (forall m :: m in after.topic.dlq[|before.topic.dlq|..] ==>
          exists x :: x in order && x in before.topic.pending && m == before.topic.pending[x].msg
                      && Exhausted(before.topic.pending[x], before.history.now, steady, c))
  }

  /** A visited copy of this message is retried. */
  ghost predicate RetriedId(s: System, order: seq<CopyKey>, id: nat, steady: int, c: Settings) {
    exists x :: x in order && x in s.topic.pending && x.1 == id && Retried(s.topic.pending[x], s.history.now, steady, c)
  }

  /** The copy of the next retry. */
  function Next(m: Message): Message {
    m.(retryCount := m.retryCount + 1)
  }

  ghost predicate Again(m: Message, s: System, order: seq<CopyKey>, steady: int, c: Settings) {
    exists x :: x in order && x in s.topic.pending && Retried(s.topic.pending[x], s.history.now, steady, c)
                && m == Next(s.topic.pending[x].msg)
  }

  /** The retry queue after the scan: a new copy of each message retried, and the others as they were. */
  ghost predicate RetryScanned(before: System, after: System, order: seq<CopyKey>, steady: int, c: Settings) {
    && (forall id: nat :: RetriedId(before, order, id, steady, c) ==> Holds(after.topic.retry, id))
    && (forall m :: m in before.topic.retry && !RetriedId(before, order, m.id, steady, c) ==> m in after.topic.retry)
    && (forall m :: m in after.topic.retry ==>
          Again(m, before, order, steady, c) || (m in before.topic.retry && !RetriedId(before, order, m.id, steady, c)))
  }

  /** A visit, seen from the copies that are visited later. */
  lemma TimeOutRest(s: System, order: seq<CopyKey>, steady: int, c: Settings)
    requires Visitable(order, s.topic.pending) && order != []
    ensures var s1 := TimeOut(s, order[0], steady, c);
            && s1.history == s.history
            && (forall x :: x in s1.topic.pending ==> x in s.topic.pending && s1.topic.pending[x] == s.topic.pending[x])
            && (forall x :: x in s.topic.pending ==> x in s1.topic.pending || (x == order[0] && Due(s.topic.pending[x], steady, c)))
            && (Due(s.topic.pending[order[0]], steady, c) ==> order[0] !in s1.topic.pending)
            && order[0] !in order[1..]
            && (forall x :: x in order[1..] ==> x in order && x in s1.topic.pending)
            && (forall x :: x in order ==> x == order[0] || x in order[1..])
  {
  }

  lemma {:induction false} ScanPending(s: System, order: seq<CopyKey>, steady: int, c: Settings)
    requires Visitable(order, s.topic.pending)
    ensures PendingScanned(s, RetryScan(s, order, steady, c), order, steady, c)
    decreases |order|
  {
    hide TimeOut, RetryScan, Due;
    if order == [] {
      RetryScanNothing(s, steady, c);
    } else {
      RetryScanFirst(s, order, steady, c);
      TimeOutRest(s, order, steady, c);
      ScanPending(TimeOut(s, order[0], steady, c), order[1..], steady, c);
    }
  }

  lemma TimeOutDead(s: System, x: CopyKey, steady: int, c: Settings)
    requires x in s.topic.pending
    ensures TimeOut(s, x, steady, c).topic.dlq == s.topic.dlq +
            if Exhausted(s.topic.pending[x], s.history.now, steady, c) then [s.topic.pending[x].msg] else []
  {
  }

  lemma {:induction false} ScanDead(s: System, order: seq<CopyKey>, steady: int, c: Settings)
    requires Visitable(order, s.topic.pending)
    ensures DeadScanned(s, RetryScan(s, order, steady, c), order, steady, c)
    decreases |order|
  {
    hide TimeOut, RetryScan, Exhausted;
    if order == [] {
      RetryScanNothing(s, steady, c);
    } else {
      var s1, s' := TimeOut(s, order[0], steady, c), RetryScan(s, order, steady, c);
      RetryScanFirst(s, order, steady, c);
      TimeOutRest(s, order, steady, c);
      TimeOutDead(s, order[0], steady, c);
      ScanDead(s1, order[1..], steady, c);
      var first := s1.topic.dlq[|s.topic.dlq|..];
      assert s'.topic.dlq[|s.topic.dlq|..] == first + s'.topic.dlq[|s1.topic.dlq|..];
      DeadJoined(s, s1, s', order, steady, c, first, s'.topic.dlq[|s1.topic.dlq|..]);
    }
  }

  lemma DeadJoined(
    s: System, s1: System, s': System, order: seq<CopyKey>, steady: int, c: Settings, first: seq<Message>, rest: seq<Message>)
    requires order != [] && order[0] in s.topic.pending && s1.history == s.history
    requires first == if Exhausted(s.topic.pending[order[0]], s.history.now, steady, c) then [s.topic.pending[order[0]].msg] else []
    requires s.topic.dlq <= s'.topic.dlq && s'.topic.dlq[|s.topic.dlq|..] == first + rest
    requires forall x :: x in order[1..] ==> x in s.topic.pending && x in s1.topic.pending && s1.topic.pending[x] == s.topic.pending[x]
    requires forall x :: x in order ==> x == order[0] || x in order[1..]
    requires forall x :: x in order[1..] && Exhausted(s1.topic.pending[x], s.history.now, steady, c) ==> s1.topic.pending[x].msg in rest
    requires forall m :: m in rest ==>
      exists x :: x in order[1..] && m == s1.topic.pending[x].msg && Exhausted(s1.topic.pending[x], s.history.now, steady, c)
    ensures DeadScanned(s, s', order, steady, c)
  {
    hide Exhausted;
    assert forall m :: m in first + rest <==> m in first || m in rest;
    forall m | m in first + rest
      ensures exists x :: x in order && x in s.topic.pending && m == s.topic.pending[x].msg
                          && Exhausted(s.topic.pending[x], s.history.now, steady, c)
    {
      if m in first {
        assert order[0] in order;
      } else {
        var x :| x in order[1..] && m == s1.topic.pending[x].msg && Exhausted(s1.topic.pending[x], s.history.now, steady, c);
        assert x in order;
      }
    }
  }

  lemma TimeOutQueue(s: System, x: CopyKey, steady: int, c: Settings)
    requires x in s.topic.pending && s.topic.pending[x].msg.id == x.1
    ensures var p, s1 := s.topic.pending[x], TimeOut(s, x, steady, c);
            if Retried(p, s.history.now, steady, c) then
              forall m :: m in s1.topic.retry <==> (m in s.topic.retry && m.id != x.1) || m == Next(p.msg)
            else s1.topic.retry == s.topic.retry
  {
    WithoutMembers(s.topic.retry, x.1);
  }

  lemma RetriedFirst(s: System, s1: System, order: seq<CopyKey>, id: nat, steady: int, c: Settings)
    requires order != [] && order[0] in s.topic.pending && s1.history == s.history
    requires forall x :: x in order[1..] ==> x in s.topic.pending && x in s1.topic.pending && s1.topic.pending[x] == s.topic.pending[x]
    requires forall x :: x in order <==> x == order[0] || x in order[1..]
    ensures RetriedId(s, order, id, steady, c) <==>
            (order[0].1 == id && Retried(s.topic.pending[order[0]], s.history.now, steady, c)) || RetriedId(s1, order[1..], id, steady, c)
  {
    hide Retried;
    if RetriedId(s1, order[1..], id, steady, c) {
      var x :| x in order[1..] && x.1 == id && Retried(s1.topic.pending[x], s.history.now, steady, c);
      assert x in order;
    }
    if RetriedId(s, order, id, steady, c) {
      var x :| x in order && x in s.topic.pending && x.1 == id && Retried(s.topic.pending[x], s.history.now, steady, c);
      assert x != order[0] ==> x in order[1..] && Retried(s1.topic.pending[x], s.history.now, steady, c);
    }
  }

  lemma AgainFirst(s: System, s1: System, order: seq<CopyKey>, m: Message, steady: int, c: Settings)
    requires order != [] && order[0] in s.topic.pending && s1.history == s.history
    requires forall x :: x in order[1..] ==> x in s.topic.pending && x in s1.topic.pending && s1.topic.pending[x] == s.topic.pending[x]
    requires forall x :: x in order <==> x == order[0] || x in order[1..]
    ensures Retried(s.topic.pending[order[0]], s.history.now, steady, c) && m == Next(s.topic.pending[order[0]].msg) ==>
              Again(m, s, order, steady, c)
    ensures Again(m, s1, order[1..], steady, c) ==> Again(m, s, order, steady, c)
  {
    hide Retried;
    if Again(m, s1, order[1..], steady, c) {
      var x :| x in order[1..] && x in s1.topic.pending && Retried(s1.topic.pending[x], s.history.now, steady, c)
               && m == Next(s1.topic.pending[x].msg);
      assert x in order;
    }
    assert order[0] in order;
  }

  lemma RetryJoined(s: System, s1: System, s': System, order: seq<CopyKey>, steady: int, c: Settings)
    requires order != [] && order[0] in s.topic.pending && s1.history == s.history
    requires forall x :: x in order[1..] ==> x in s.topic.pending && x in s1.topic.pending && s1.topic.pending[x] == s.topic.pending[x]
    requires forall x :: x in order <==> x == order[0] || x in order[1..]
    requires var p := s.topic.pending[order[0]];
             if Retried(p, s.history.now, steady, c) then
               p.msg.id == order[0].1
               && forall m :: m in s1.topic.retry <==> (m in s.topic.retry && m.id != order[0].1) || m == Next(p.msg)
             else s1.topic.retry == s.topic.retry
    requires RetryScanned(s1, s', order[1..], steady, c)
    ensures RetryScanned(s, s', order, steady, c)
  {
    hide Retried, RetriedId, Again;
    var p := s.topic.pending[order[0]];
    var again := Retried(p, s.history.now, steady, c);
    forall id: nat
      ensures RetriedId(s, order, id, steady, c) <==> (order[0].1 == id && again) || RetriedId(s1, order[1..], id, steady, c)
    {
      RetriedFirst(s, s1, order, id, steady, c);
    }
    forall id: nat | RetriedId(s, order, id, steady, c)
      ensures Holds(s'.topic.retry, id)
    {
      if !RetriedId(s1, order[1..], id, steady, c) {
        assert Next(p.msg) in s'.topic.retry;
      }
    }
    forall m | m in s'.topic.retry
      ensures Again(m, s, order, steady, c) || (m in s.topic.retry && !RetriedId(s, order, m.id, steady, c))
    {
      AgainFirst(s, s1, order, m, steady, c);
    }
  }

  lemma {:induction false} ScanRetries(s: System, order: seq<CopyKey>, steady: int, c: Settings)
    requires Visitable(order, s.topic.pending) && OwnIds(s.topic.pending)
    ensures RetryScanned(s, RetryScan(s, order, steady, c), order, steady, c)
    decreases |order|
  {
    hide TimeOut, RetryScan, Retried, RetryScanned, Due;
    if order == [] {
      RetryScanNothing(s, steady, c);
      NothingScanned(s, steady, c);
    } else {
      RetryScanFirst(s, order, steady, c);
      TimeOutRest(s, order, steady, c);
      TimeOutQueue(s, order[0], steady, c);
      ScanRetries(TimeOut(s, order[0], steady, c), order[1..], steady, c);
      RetryJoined(s, TimeOut(s, order[0], steady, c), RetryScan(s, order, steady, c), order, steady, c);
    }
  }

  lemma NothingScanned(s: System, steady: int, c: Settings)
    ensures RetryScanned(s, s, [], steady, c)
  {
  }

  /**
   One retry scan, in any order of the pending copies: exactly those that are due are pending no longer. Those of them that
   have not expired and have no retries left are the new dead letters; those that have some left are in the retry queue with
   one retry more (one copy of each message, where several consumers had one); nothing else changes there.
  */
  lemma RetryScanExactly(s: System, order: seq<CopyKey>, steady: int, c: Settings)
    requires Enumerates(order, s.topic.pending) && OwnIds(s.topic.pending)
    ensures var s' := RetryScan(s, order, steady, c);
            && (forall x :: x in s'.topic.pending <==> x in s.topic.pending && !Due(s.topic.pending[x], steady, c))
            && (forall x :: x in s'.topic.pending ==> s'.topic.pending[x] == s.topic.pending[x])
            && DeadScanned(s, s', order, steady, c)
            && RetryScanned(s, s', order, steady, c)
            && s'.topic.log == s.topic.log && s'.topic.ring == s.topic.ring && s'.history == s.history
  {
    hide RetryScan, DeadScanned, RetryScanned, Due;
    ScanPending(s, order, steady, c);
    ScanDead(s, order, steady, c);
    ScanRetries(s, order, steady, c);
    ScanLeavesLog(s, order, steady, c);
  }

  lemma {:induction false} ScanLeavesLog(s: System, order: seq<CopyKey>, steady: int, c: Settings)
    requires Visitable(order, s.topic.pending)
    ensures var s' := RetryScan(s, order, steady, c);
            s'.topic.log == s.topic.log && s'.topic.ring == s.topic.ring && s'.history == s.history
    decreases |order|
  {
    hide RetryScan;
    if order == [] {
      RetryScanNothing(s, steady, c);
    } else {
      RetryScanFirst(s, order, steady, c);
      ScanLeavesLog(TimeOut(s, order[0], steady, c), order[1..], steady, c);
    }
  }

  ghost function RetriedIds(s: System, order: seq<CopyKey>, steady: int, c: Settings): set<nat> {
    set x | x in order && x in s.topic.pending && Retried(s.topic.pending[x], s.history.now, steady, c) :: x.1
  }

  lemma RetriedIdsFirst(s: System, s1: System, order: seq<CopyKey>, steady: int, c: Settings)
    requires order != [] && order[0] in s.topic.pending && s1.history == s.history
    requires forall x :: x in order[1..] ==> x in s.topic.pending && x in s1.topic.pending && s1.topic.pending[x] == s.topic.pending[x]
    requires forall x :: x in order <==> x == order[0] || x in order[1..]
    ensures RetriedIds(s, order, steady, c) ==
            (if Retried(s.topic.pending[order[0]], s.history.now, steady, c) then {order[0].1} else {}) + RetriedIds(s1, order[1..], steady, c)
  {
    hide Retried;
    forall id: nat
      ensures id in RetriedIds(s, order, steady, c) <==>
              (order[0].1 == id && Retried(s.topic.pending[order[0]], s.history.now, steady, c)) || id in RetriedIds(s1, order[1..], steady, c)
    {
      RetriedFirst(s, s1, order, id, steady, c);
    }
  }

  lemma {:induction false} WithoutIsRemaining(q: seq<Message>, id: nat)
    ensures Without(q, id) == Remaining(q, {id})
  {
    if q == [] {
      assert Remaining([], {id}) == [];
    } else {
      WithoutIsRemaining(q[1..], id);
      RemainingConcat([q[0]], q[1..], {id});
      assert q == [q[0]] + q[1..];
      RemainingSnoc([], q[0], {id});
      assert [] + [q[0]] == [q[0]];
    }
  }

  /** The queue after one visit: what stays keeps its order, and a retried copy goes to the end. */
  lemma TimeOutGoesLast(s: System, x: CopyKey, steady: int, c: Settings)
    requires x in s.topic.pending && s.topic.pending[x].msg.id == x.1
    ensures TimeOut(s, x, steady, c).topic.retry ==
            if Retried(s.topic.pending[x], s.history.now, steady, c) then
              Remaining(s.topic.retry, {x.1}) + [Next(s.topic.pending[x].msg)]
            else s.topic.retry
  {
    WithoutIsRemaining(s.topic.retry, x.1);
  }

  lemma {:induction false} RetriedGoLast(s: System, order: seq<CopyKey>, steady: int, c: Settings) returns (again: seq<Message>)
    requires Visitable(order, s.topic.pending) && OwnIds(s.topic.pending)
    ensures RetryScan(s, order, steady, c).topic.retry == Remaining(s.topic.retry, RetriedIds(s, order, steady, c)) + again
    ensures forall m :: m in again ==> Again(m, s, order, steady, c)
    decreases |order|
  {
    hide TimeOut, RetryScan, Retried, Due, Again, Remaining, RetriedIds;
    if order == [] {
      RetryScanNothing(s, steady, c);
      assert RetriedIds(s, [], steady, c) == {} by { NothingRetried(s, steady, c); }
      RemainingAll(s.topic.retry, {});
      again := [];
      assert s.topic.retry + [] == s.topic.retry;
    } else {
      var s1, x := TimeOut(s, order[0], steady, c), order[0];
      RetryScanFirst(s, order, steady, c);
      TimeOutRest(s, order, steady, c);
      TimeOutGoesLast(s, x, steady, c);
      RetriedIdsFirst(s, s1, order, steady, c);
      var later := RetriedGoLast(s1, order[1..], steady, c);
      var ids := RetriedIds(s1, order[1..], steady, c);
      if Retried(s.topic.pending[x], s.history.now, steady, c) {
        var m := Next(s.topic.pending[x].msg);
        again := Remaining([m], ids) + later;
        RemainingConcat(Remaining(s.topic.retry, {x.1}), [m], ids);
        RemainingTwice(s.topic.retry, {x.1}, ids);
        RemainingMembers([m], ids);
      } else {
        again := later;
        assert {} + ids == ids;
      }
      forall e | e in again
        ensures Again(e, s, order, steady, c)
      {
        AgainFirst(s, s1, order, e, steady, c);
      }
    }
  }

  lemma NothingRetried(s: System, steady: int, c: Settings)
    ensures RetriedIds(s, [], steady, c) == {}
  {
  }

  /** Taking out what has expired goes message by message, so the others keep their order. */
  lemma {:induction false} UnexpiredConcat(a: seq<Message>, b: seq<Message>, now: nat)
    ensures Unexpired(a + b, now) == Unexpired(a, now) + Unexpired(b, now)
  {
    hide Unexpired, Expired;
    if a == [] {
      assert a + b == b;
      UnexpiredNone(now);
    } else {
      var first := if Expired(a[0], now) then [] else [a[0]];
      UnexpiredConcat(a[1..], b, now);
      assert (a + b)[1..] == a[1..] + b && (a + b)[0] == a[0];
      UnexpiredFirst(a, now);
      UnexpiredFirst(a + b, now);
      assert first + (Unexpired(a[1..], now) + Unexpired(b, now)) == first + Unexpired(a[1..], now) + Unexpired(b, now);
    }
  }

  lemma UnexpiredNone(now: nat)
    ensures Unexpired([], now) == []
  {
  }

  lemma UnexpiredFirst(q: seq<Message>, now: nat)
    requires q != []
    ensures Unexpired(q, now) == (if Expired(q[0], now) then [] else [q[0]]) + Unexpired(q[1..], now)
  {
    hide Expired;
  }

  /** An expiry scan: what has expired is gone from log, retry queue and pending copies, and everything else is as before. */
  lemma ExpiryScanExactly(s: System, now: nat)
    ensures var t, t' := s.topic, ExpiryScan(s, now).topic;
            && (forall m :: m in t'.log <==> m in t.log && !Expired(m, now))
            && (forall m :: m in t'.retry <==> m in t.retry && !Expired(m, now))
            && (forall x :: x in t'.pending <==> x in t.pending && !Expired(t.pending[x].msg, now))
            && (forall x :: x in t'.pending ==> t'.pending[x] == t.pending[x])
            && t'.ring == t.ring && t'.dlq == t.dlq && t'.offsets == t.offsets && t'.nextId == t.nextId
  {
    UnexpiredMembers(s.topic.log, now);
    UnexpiredMembers(s.topic.retry, now);
  }
}
