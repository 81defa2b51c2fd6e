/** Retry scans that go through the pending copies one after another. */
module RetryOrders {
  import opened TopicState
  import opened TopicRuns

  lemma RetryScanNothing(s: System, steady: int, c: Settings)
    ensures Visitable([], s.topic.pending) && RetryScan(s, [], steady, c) == s
  {
  }

  lemma RetryScanFirst(s: System, order: seq<CopyKey>, steady: int, c: Settings)
    requires Visitable(order, s.topic.pending) && order != []
    ensures var s' := TimeOut(s, order[0], steady, c);
            Visitable(order[1..], s'.topic.pending) && RetryScan(s, order, steady, c) == RetryScan(s', order[1..], steady, c)
  {
    hide TimeOut;
    TimeOutLeavesOthers(s, order, steady, c);
  }

  lemma TimeOutLeavesCopy(s: System, x: CopyKey, steady: int, c: Settings, y: CopyKey)
    requires x in s.topic.pending && y in s.topic.pending
    requires x != y || steady - s.topic.pending[y].pullTime < c.pendingTimeout
    ensures var s' := TimeOut(s, x, steady, c);
            y in s'.topic.pending && s'.topic.pending[y] == s.topic.pending[y]
  {
  }

  /** A scan leaves the copies that it does not visit and those that are not due. */
  lemma {:induction false} RetryScanLeavesCopy(s: System, order: seq<CopyKey>, steady: int, c: Settings, x: CopyKey)
    requires Visitable(order, s.topic.pending) && x in s.topic.pending
    requires x !in order || steady - s.topic.pending[x].pullTime < c.pendingTimeout
    ensures var s' := RetryScan(s, order, steady, c);
            x in s'.topic.pending && s'.topic.pending[x] == s.topic.pending[x]
    decreases |order|
  {
    hide RetryScan, TimeOut;
    if order == [] {
      RetryScanNothing(s, steady, c);
    } else {
      RetryScanFirst(s, order, steady, c);
      TimeOutLeavesCopy(s, order[0], steady, c, x);
      RetryScanLeavesCopy(TimeOut(s, order[0], steady, c), order[1..], steady, c, x);
    }
  }

  lemma VisitableParts(a: seq<CopyKey>, b: seq<CopyKey>, pending: map<CopyKey, Pending>)
    requires Visitable(a + b, pending)
    ensures Visitable(a, pending) && Visitable(b, pending) && forall x :: x in b ==> x !in a
  {
    assert forall i :: 0 <= i < |a| ==> (a + b)[i] == a[i];
    assert forall i :: 0 <= i < |b| ==> (a + b)[|a| + i] == b[i];
  }

  /** A scan can be stopped and taken up again. */
  lemma {:induction false} RetryScanConcat(s: System, a: seq<CopyKey>, b: seq<CopyKey>, steady: int, c: Settings)
    requires Visitable(a + b, s.topic.pending)
    ensures Visitable(a, s.topic.pending)
    ensures var s' := RetryScan(s, a, steady, c);
            && Visitable(b, s'.topic.pending)
            && (forall x :: x in b ==>
                  x in s.topic.pending && x in s'.topic.pending && s'.topic.pending[x] == s.topic.pending[x])
            && RetryScan(s, a + b, steady, c) == RetryScan(s', b, steady, c)
    decreases |a|
  {
    hide RetryScan, TimeOut;
    VisitableParts(a, b, s.topic.pending);
    if a == [] {
      RetryScanNothing(s, steady, c);
      assert a + b == b;
    } else {
      var s1 := TimeOut(s, a[0], steady, c);
      RetryScanFirst(s, a, steady, c);
      RetryScanFirst(s, a + b, steady, c);
      assert (a + b)[1..] == a[1..] + b;
      RetryScanConcat(s1, a[1..], b, steady, c);
      forall x | x in b
        ensures x in s1.topic.pending && s1.topic.pending[x] == s.topic.pending[x]
      {
        TimeOutLeavesCopy(s, a[0], steady, c, x);
      }
    }
  }

  /** Visiting one more copy after the others. */
  lemma RetryScanSnoc(s: System, order: seq<CopyKey>, steady: int, c: Settings, x: CopyKey)
    requires Visitable(order, s.topic.pending) && x in s.topic.pending && x !in order
    ensures Visitable(order + [x], s.topic.pending)
    ensures var s' := RetryScan(s, order, steady, c);
            && x in s'.topic.pending && s'.topic.pending[x] == s.topic.pending[x]
            && RetryScan(s, order + [x], steady, c) == TimeOut(s', x, steady, c)
  {
    hide RetryScan, TimeOut;
    RetryScanConcat(s, order, [x], steady, c);
    var s' := RetryScan(s, order, steady, c);
    assert x in [x];
    RetryScanFirst(s', [x], steady, c);
    RetryScanNothing(TimeOut(s', x, steady, c), steady, c);
    assert [x][1..] == [];
  }

  lemma TimeOutBesideDlqPull(s: System, x: CopyKey, steady: int, c: Settings, n: nat)
    requires x in s.topic.pending && n <= |s.topic.dlq|
    ensures TimeOut(PullDlq(s, n), x, steady, c) == PullDlq(TimeOut(s, x, steady, c), n)
    ensures n <= |TimeOut(s, x, steady, c).topic.dlq|
  {
    var m := s.topic.pending[x].msg;
    assert (s.topic.dlq + [m])[..n] == s.topic.dlq[..n] && (s.topic.dlq + [m])[n..] == s.topic.dlq[n..] + [m];
  }

  lemma {:induction false} RetryScanBesideDlqPull(s: System, order: seq<CopyKey>, steady: int, c: Settings, n: nat)
    requires Visitable(order, s.topic.pending) && n <= |s.topic.dlq|
    ensures RetryScan(PullDlq(s, n), order, steady, c) == PullDlq(RetryScan(s, order, steady, c), n)
    decreases |order|
  {
    hide RetryScan, TimeOut, PullDlq;
    PullDlqLeavesPending(s, n);
    if order == [] {
      RetryScanNothing(s, steady, c);
      RetryScanNothing(PullDlq(s, n), steady, c);
    } else {
      RetryScanFirst(s, order, steady, c);
      RetryScanFirst(PullDlq(s, n), order, steady, c);
      TimeOutBesideDlqPull(s, order[0], steady, c, n);
      RetryScanBesideDlqPull(TimeOut(s, order[0], steady, c), order[1..], steady, c, n);
    }
  }

  lemma PullDlqLeavesPending(s: System, n: nat)
    ensures PullDlq(s, n).topic.pending == s.topic.pending
  {
  }

  /**
   Dead letters are pulled under a lock of their own, also in the middle of a scan. The outcome is that of the whole scan
   followed by a pull of as many dead letters, so that both can be taken for atomic.
  */
  lemma DlqPullDuringScan(s: System, a: seq<CopyKey>, b: seq<CopyKey>, steady: int, c: Settings, max: nat)
    requires Visitable(a + b, s.topic.pending)
    ensures Visitable(a, s.topic.pending)
    ensures var middle := RetryScan(s, a, steady, c);
            var count := if max < |middle.topic.dlq| then max else |middle.topic.dlq|;
            && Visitable(b, PullDlq(middle, max).topic.pending)
            && RetryScan(PullDlq(middle, max), b, steady, c) == PullDlq(RetryScan(s, a + b, steady, c), count)
  {
    hide RetryScan;
    RetryScanConcat(s, a, b, steady, c);
    var middle := RetryScan(s, a, steady, c);
    var count := if max < |middle.topic.dlq| then max else |middle.topic.dlq|;
    assert PullDlq(middle, max) == PullDlq(middle, count);
    RetryScanBesideDlqPull(middle, b, steady, c, count);
  }

  /** The state without copies that the scan has dealt with but not removed yet. */
  ghost function Pruned(s: System, gone: set<CopyKey>): System {
    s.(topic := s.topic.(pending := s.topic.pending - gone))
  }

  /** What becomes of the message of a copy when the retry scan visits it. */
  function Reschedule(s: System, p: Pending, now: nat, steady: int, c: Settings): System {
    if steady - p.pullTime < c.pendingTimeout || Expired(p.msg, now) then s
    else if p.msg.retryCount >= c.maxRetry then DeadLetter(s, p.msg)
    else Requeue(s, p.msg)
  }

  /** Visiting a copy and removing it later is timing it out. */
  lemma TimeOutLater(s: System, gone: set<CopyKey>, x: CopyKey, steady: int, c: Settings)
    requires x in s.topic.pending && x !in gone
    ensures var p := s.topic.pending[x];
            TimeOut(Pruned(s, gone), x, steady, c) ==
            Pruned(Reschedule(s, p, s.history.now, steady, c), if steady - p.pullTime < c.pendingTimeout then gone else gone + {x})
  {
  }
}
