/** Publishing and draining in parallel, byte by byte. */
module TopicThreads {
  import opened Bytes
  import opened RecordStream
  import opened RingThreads
  import opened TopicState
  import opened TopicRecords
  import opened MessageSeqs

  /** The messages that draining makes of records; records that are too short are skipped. */
  function Drained(records: seq<seq<byte>>): seq<Message> {
    if records == [] then []
    else
      var front, last := Drained(records[..|records| - 1]), ParseRecord(records[|records| - 1]);
      if last.Some? then front + [last.value] else front
  }

  lemma {:induction false} DrainedRecords(records: seq<seq<byte>>, messages: seq<Message>)
    requires RecordsOf(records, messages)
    ensures Drained(records) == messages
  {
    if records != [] {
      var n := |records| - 1;
      DrainedRecords(records[..n], messages[..n]);
      RecordRoundTrip(messages[n]);
      assert messages == messages[..n] + [messages[n]];
    }
  }

  /**
   The producer pushes the records of `messages` while the consumer drains. At every step of every interleaving the log (what
   the popped records are drained to) followed by what is in the bytes of the ring is exactly these messages, in order;
   so when ids are given out increasingly, every id in the log is below every id in the ring.
  */
  lemma LogAndRingAtEveryStep(run: seq<Machine>, i: nat, messages: seq<Message>)
    requires IsRun(run) && i < |run| && RecordsOf(run[i].shared.pushed, messages)
    ensures Formed(run[i])
    ensures var log, ring := Drained(run[i].shared.popped), Drained(Split(Readable(run[i])));
            && log + ring == messages
            && (Increasing(messages) ==> forall a, b :: a in log && b in ring ==> a.id < b.id)
  {
    hide IsRun, Drained, Readable, Formed;
    FifoUnderEveryInterleaving(run, i);
    var popped, rest := run[i].shared.popped, Split(Readable(run[i]));
    var n := |popped|;
    assert popped == (popped + rest)[..n] && rest == (popped + rest)[n..];
    DrainedRecords(popped, messages[..n]);
    DrainedRecords(rest, messages[n..]);
    assert messages == messages[..n] + messages[n..];
    if Increasing(messages) {
      FrontIsBelowRest(messages, n);
    }
  }

  lemma FrontIsBelowRest(messages: seq<Message>, n: nat)
    requires Increasing(messages) && n <= |messages|
    ensures forall a, b :: a in messages[..n] && b in messages[n..] ==> a.id < b.id
  {
    forall a, b | a in messages[..n] && b in messages[n..]
      ensures a.id < b.id
    {
      var j :| 0 <= j < n && messages[j] == a;
      var k :| 0 <= k < |messages| - n && messages[n..][k] == b;
      assert messages[n + k] == b;
    }
  }
}
