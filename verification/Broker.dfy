/** Runs of publish requests through the dedup window. */
module PublishRuns {
  import opened Dedup

  datatype Stored = Stored(producer: string, sequence: nat)

  /** The dedup window, and what has been stored so far. */
  datatype BrokerState = BrokerState(window: Window, stored: seq<Stored>)

  const NEW_BROKER := BrokerState(map[], [])

  /**
   A publish request, with the answers that limiters and store give when they are asked, or a cleanup that leaves the
   producers in `kept`.
  */
  datatype Event =
    | Publishing(producer: string, sequence: nat, admitted: bool, taken: bool, now: int)
    | Evicting(kept: set<string>)

  predicate Stores(b: BrokerState, e: Event) {
    e.Publishing? && !Duplicate(b.window, e.producer, e.sequence) && e.admitted && e.taken
  }

  function Handle(b: BrokerState, e: Event): BrokerState {
    match e
    case Publishing(producer, sequence, _, _, now) =>
      if Stores(b, e) then BrokerState(Marked(b.window, producer, sequence, now), b.stored + [Stored(producer, sequence)]) else b
    case Evicting(kept) => b.(window := map p | p in b.window && p in kept :: b.window[p])
  }

  /** What the window's removals do is an eviction. */
  lemma RemovalEvicts(b: BrokerState, after: Window, limit: nat, p: string)
    ensures KeepsMostRecent(b.window, after, limit) ==> after == Handle(b, Evicting(after.Keys)).window
    ensures Handle(b, Evicting(b.window.Keys - {p})).window == b.window - {p}
  {
  }

  ghost predicate IsRun(run: seq<BrokerState>, events: seq<Event>) {
    && |run| == |events| + 1
    && run[0] == NEW_BROKER
    && forall i :: 0 <= i < |events| ==> run[i + 1] == Handle(run[i], events[i])
  }

  predicate Forgets(e: Event, p: string) {
    e.Evicting? && p !in e.kept
  }

  /** The sequence numbers stored for producer `p` since it was last evicted. */
  ghost function Remembered(run: seq<BrokerState>, events: seq<Event>, i: nat, p: string): set<nat>
    requires |run| == |events| + 1 && i < |run|
  {
    if i == 0 || Forgets(events[i - 1], p) then {}
    else
      Remembered(run, events, i - 1, p)
      + if Stores(run[i - 1], events[i - 1]) && events[i - 1].producer == p then {events[i - 1].sequence} else {}
  }

  /** One of the numbers is `s` or higher. */
  ghost predicate Covers(sequences: set<nat>, s: nat) {
    exists s': nat :: s' in sequences && s' >= s
  }

  lemma CoversOneMore(sequences: set<nat>, n: nat, s: nat)
    ensures Covers(sequences + {n}, s) <==> Covers(sequences, s) || n >= s
  {
  }

  /** A request counts as a duplicate exactly when its number or a higher one was stored since the producer was last evicted. */
  lemma {:induction false} DuplicateExactly(run: seq<BrokerState>, events: seq<Event>, i: nat, p: string, s: nat)
    requires IsRun(run, events) && i < |run| && p != ""
    ensures Duplicate(run[i].window, p, s) <==> Covers(Remembered(run, events, i, p), s)
  {
    if i > 0 {
      DuplicateExactly(run, events, i - 1, p, s);
      var b, e, before := run[i - 1], events[i - 1], Remembered(run, events, i - 1, p);
      assert before + {} == before;
      if Stores(b, e) {
        MarkedMeans(b.window, e.producer, e.sequence, e.now, p, s);
        CoversOneMore(before, e.sequence, s);
      }
    }
  }

  /** Event `k` stored a number for the producer, and no later one up to state `i` did so or evicted it. */
  ghost predicate LastStored(run: seq<BrokerState>, events: seq<Event>, k: nat, i: nat, p: string)
    requires |run| == |events| + 1 && k < i < |run|
  {
    && Stores(run[k], events[k]) && events[k].producer == p
    && forall n :: k < n < i ==> !Forgets(events[n], p) && !(Stores(run[n], events[n]) && events[n].producer == p)
  }

  lemma {:induction false} AnonymousUnknown(run: seq<BrokerState>, events: seq<Event>, i: nat)
    requires IsRun(run, events) && i < |run|
    ensures "" !in run[i].window
  {
    if i > 0 {
      AnonymousUnknown(run, events, i - 1);
    }
  }

  /** A producer counts as active since the clock reading of what it stored last; this is what the cleanup goes by. */
  lemma {:induction false} ActiveSinceLastStored(run: seq<BrokerState>, events: seq<Event>, i: nat, p: string)
    requires IsRun(run, events) && |run| == |events| + 1 && i < |run| && p in run[i].window
    ensures exists k :: 0 <= k < i && LastStored(run, events, k, i, p) && run[i].window[p].lastActive == events[k].now
  {
    assert i > 0;
    var b, e := run[i - 1], events[i - 1];
    assert run[i] == Handle(b, e);
    AnonymousUnknown(run, events, i);
    if Stores(b, e) && e.producer == p {
      assert LastStored(run, events, i - 1, i, p) && run[i].window[p].lastActive == e.now;
    } else {
      assert p in b.window && run[i].window[p] == b.window[p] && !Forgets(e, p);
      ActiveSinceLastStored(run, events, i - 1, p);
      var k :| 0 <= k < i - 1 && LastStored(run, events, k, i - 1, p) && b.window[p].lastActive == events[k].now;
      assert LastStored(run, events, k, i, p);
    }
  }

  ghost predicate NeverForgotten(events: seq<Event>, i: nat, p: string)
    requires i <= |events|
  {
    forall k :: 0 <= k < i ==> !Forgets(events[k], p)
  }

  /** Without evictions everything stored is remembered. */
  lemma {:induction false} RememberedAll(run: seq<BrokerState>, events: seq<Event>, i: nat, p: string)
    requires IsRun(run, events) && i < |run| && NeverForgotten(events, i, p)
    ensures forall s: nat :: s in Remembered(run, events, i, p) <==> Stored(p, s) in run[i].stored
  {
    if i > 0 {
      RememberedAll(run, events, i - 1, p);
      assert run[i] == Handle(run[i - 1], events[i - 1]);
    }
  }

  /**
   As long as its producer is not evicted, a request is a duplicate exactly when its number or a higher one was stored;
   the numbers stored for the producer increase strictly, so none is stored twice.
   */
  lemma {:induction false} IdempotentProducer(run: seq<BrokerState>, events: seq<Event>, i: nat, p: string)
    requires IsRun(run, events) && i < |run| && NeverForgotten(events, i, p) && p != ""
    ensures forall s :: Duplicate(run[i].window, p, s) <==> exists s': nat :: Stored(p, s') in run[i].stored && s' >= s
    ensures forall a, b :: 0 <= a < b < |run[i].stored| && run[i].stored[a].producer == p && run[i].stored[b].producer == p ==>
      run[i].stored[a].sequence < run[i].stored[b].sequence
  {
    forall s: nat
      ensures Duplicate(run[i].window, p, s) <==> exists s': nat :: Stored(p, s') in run[i].stored && s' >= s
    {
      DuplicateExactly(run, events, i, p, s);
      RememberedAll(run, events, i, p);
      var sequences := Remembered(run, events, i, p);
      assert Covers(sequences, s) <==> exists s': nat :: s' in sequences && s' >= s;
      if s': nat :| Stored(p, s') in run[i].stored && s' >= s {
        assert s' in sequences;
      }
    }
    if i > 0 {
      IdempotentProducer(run, events, i - 1, p);
      var b, e := run[i - 1], events[i - 1];
      if Stores(b, e) && e.producer == p {
        forall a | 0 <= a < |b.stored| && b.stored[a].producer == p
          ensures b.stored[a].sequence < e.sequence
        {
          assert Stored(p, b.stored[a].sequence) in b.stored;
        }
      }
    }
  }

  /** After an eviction the same number is stored again. */
  lemma EvictionForgets(p: string, s: nat) returns (run: seq<BrokerState>, events: seq<Event>)
    requires p != ""
    ensures IsRun(run, events) && |events| == 3 && |run| == 4 && run[3].stored == [Stored(p, s), Stored(p, s)]
  {
    var publish := Publishing(p, s, true, true, 0);
    var b1 := Handle(NEW_BROKER, publish);
    var b2 := Handle(b1, Evicting({}));
    run, events := [NEW_BROKER, b1, b2, Handle(b2, publish)], [publish, Evicting({}), publish];
    assert b2.window == map[];
  }

  /** A lower number than one stored is answered as a duplicate although it was never stored. */
  lemma DuplicateNeverStored(p: string, s: nat, higher: nat) returns (run: seq<BrokerState>, events: seq<Event>)
    requires p != "" && s < higher
    ensures IsRun(run, events) && |run| == 2
    ensures Duplicate(run[1].window, p, s) && Stored(p, s) !in run[1].stored
  {
    var publish := Publishing(p, higher, true, true, 0);
    run, events := [NEW_BROKER, Handle(NEW_BROKER, publish)], [publish];
  }

  /** What limiters and store answer when they are asked. */
  datatype Answer = Answer(admitted: bool, taken: bool, now: int)

  /** The requests of clients, without evictions in between. */
  function Requests(requests: seq<Stored>, answers: seq<Answer>): seq<Event>
    requires |requests| == |answers|
  {
    seq(|requests|, k requires 0 <= k < |requests| =>
      Publishing(requests[k].producer, requests[k].sequence, answers[k].admitted, answers[k].taken, answers[k].now))
  }

  /** Whatever is answered as a duplicate to the producer was stored. */
  ghost predicate DuplicatesAreStored(run: seq<BrokerState>, requests: seq<Stored>, p: string)
    requires |run| == |requests| + 1
  {
    forall k :: 0 <= k < |requests| && requests[k].producer == p && Duplicate(run[k].window, p, requests[k].sequence) ==>
      requests[k] in run[k].stored
  }

  ghost predicate AlwaysTruthful(requests: seq<Stored>, p: string) {
    forall run, answers :: |answers| == |requests| && IsRun(run, Requests(requests, answers)) ==>
      DuplicatesAreStored(run, requests, p)
  }

  predicate InOrder(requests: seq<Stored>, p: string) {
    forall i, j :: 0 <= i < j < |requests| && requests[i].producer == p && requests[j].producer == p ==>
      requests[i].sequence <= requests[j].sequence
  }

  lemma {:induction false} StoredWasRequested(run: seq<BrokerState>, requests: seq<Stored>, answers: seq<Answer>, i: nat, e: Stored)
    requires |answers| == |requests| && IsRun(run, Requests(requests, answers)) && i < |run| && e in run[i].stored
    ensures exists k :: 0 <= k < i && k < |requests| && requests[k] == e
  {
    if i > 0 && e in run[i - 1].stored {
      StoredWasRequested(run, requests, answers, i - 1, e);
    } else if i > 0 {
      assert run[i] == Handle(run[i - 1], Requests(requests, answers)[i - 1]);
      assert requests[i - 1] == e;
    }
  }

  lemma InOrderIsTruthful(run: seq<BrokerState>, requests: seq<Stored>, answers: seq<Answer>, p: string)
    requires |answers| == |requests| && IsRun(run, Requests(requests, answers)) && p != "" && InOrder(requests, p)
    ensures DuplicatesAreStored(run, requests, p)
  {
    forall k | 0 <= k < |requests| && requests[k].producer == p && Duplicate(run[k].window, p, requests[k].sequence)
      ensures requests[k] in run[k].stored
    {
      IdempotentProducer(run, Requests(requests, answers), k, p);
      var s: nat :| Stored(p, s) in run[k].stored && s >= requests[k].sequence;
      StoredWasRequested(run, requests, answers, k, Stored(p, s));
      var earlier :| 0 <= earlier < k && requests[earlier] == Stored(p, s);
      assert requests[k] == Stored(p, s);
    }
  }

  /** The run in which only request `i` gets through. */
  function OnlyOne(requests: seq<Stored>, i: nat): seq<Answer> {
    seq(|requests|, k => Answer(k == i, true, 0))
  }

  function RunOf(events: seq<Event>): (run: seq<BrokerState>)
    ensures |run| == |events| + 1
  {
    if events == [] then [NEW_BROKER]
    else
      var n := |events| - 1;
      var front := RunOf(events[..n]);
      front + [Handle(front[n], events[n])]
  }

  lemma {:induction false} RunOfIsRun(events: seq<Event>)
    ensures IsRun(RunOf(events), events)
  {
    if events != [] {
      RunOfIsRun(events[..|events| - 1]);
    }
  }

  lemma {:induction false} OnlyOneIsStored(run: seq<BrokerState>, requests: seq<Stored>, i: nat, n: nat)
    requires i < |requests| && IsRun(run, Requests(requests, OnlyOne(requests, i))) && n < |run| && requests[i].producer != ""
    ensures run[n].stored == (if n <= i then [] else [requests[i]])
    ensures n <= i ==> run[n].window == map[]
    ensures n > i ==> forall s: nat :: Duplicate(run[n].window, requests[i].producer, s) <==> s <= requests[i].sequence
  {
    if n > 0 {
      OnlyOneIsStored(run, requests, i, n - 1);
      assert run[n] == Handle(run[n - 1], Requests(requests, OnlyOne(requests, i))[n - 1]);
      assert [] + [requests[i]] == [requests[i]];
    }
  }

  /**
   Without evictions, whatever limiters and store answer, every duplicate reply to a producer is for a number that was
   stored, exactly if the producer sends its numbers in non-decreasing order.
  */
  lemma DuplicatesAreStoredExactly(requests: seq<Stored>, p: string)
    requires p != ""
    ensures AlwaysTruthful(requests, p) <==> InOrder(requests, p)
  {
    if InOrder(requests, p) {
      forall run, answers | |answers| == |requests| && IsRun(run, Requests(requests, answers))
        ensures DuplicatesAreStored(run, requests, p)
      {
        InOrderIsTruthful(run, requests, answers, p);
      }
    } else {
      var i, j :| 0 <= i < j < |requests| && requests[i].producer == p && requests[j].producer == p
                  && requests[i].sequence > requests[j].sequence;
      var answers := OnlyOne(requests, i);
      var run := RunOf(Requests(requests, answers));
      RunOfIsRun(Requests(requests, answers));
      OnlyOneIsStored(run, requests, i, j);
      assert !DuplicatesAreStored(run, requests, p);
    }
  }
}

/** How the broker handles a publish request. */
module Broker {
  import opened Bytes
  import opened Dedup
  import opened RateLimiter
  import opened TopicStore
  import opened Wrappers
  import opened TopicManager
  import opened Pushes
  import TokenBuckets
  import TopicState
  import opened PublishRuns

  datatype Config = Config(dedupEnabled: bool, rateLimitEnabled: bool, ttlEnabled: bool)

  datatype Request = Request(topic: string, producer: string, sequence: nat, payload: seq<byte>, ttl: nat)

  /** The clock readings a request is handled with. */
  datatype Clock = Clock(limiters: real, publish: nat, timestamp: nat, mark: int)

  datatype Response = Duplicated(sequence: nat) | RateLimited | GloballyLimited | BufferFull | Published(id: nat)

  ghost predicate IsDuplicate(config: Config, w: Window, req: Request) {
    config.dedupEnabled && Duplicate(w, req.producer, req.sequence)
  }

  /** What the window has on a producer. */
  function Known(w: Window, p: string): Option<ProducerState> {
    if p in w then Some(w[p]) else None
  }

  class Broker {
    const config: Config
    const dedupWindow: DedupWindow
    const globalLimiter: TokenBucket?
    ghost var stored: seq<Stored>

    constructor (config: Config, dedupWindow: DedupWindow, globalLimiter: TokenBucket?)
      ensures this.config == config && this.dedupWindow == dedupWindow && this.globalLimiter == globalLimiter && stored == []
    {
      this.config, this.dedupWindow, this.globalLimiter := config, dedupWindow, globalLimiter;
      stored := [];
    }

    ghost function State(): BrokerState
      reads this, dedupWindow
    {
      BrokerState(dedupWindow.producers, stored)
    }

    /**
     Checks for a duplicate first, then asks the limiter of the connection, the global one and the store, in this order
     and each only if those before agreed; the message is pushed and its number marked only once it is stored.
    */
    method HandlePublish(req: Request, connLimiter: TokenBucket, store: TopicData, manager: Manager, now: Clock)
      returns (response: Response, pushes: seq<nat>)
      requires manager.Valid()
      requires store.Valid() && connLimiter.Valid() && connLimiter != globalLimiter && connLimiter.lastRefillTime <= now.limiters
      requires globalLimiter != null ==> globalLimiter.Valid() && globalLimiter.lastRefillTime <= now.limiters
      requires store.nextMsgId < 0x1_0000_0000_0000_0000 && now.timestamp < 0x1_0000_0000_0000_0000
      requires now.publish + req.ttl < 0x1_0000_0000_0000_0000
      requires store.ringBuffer.HasRoom(TopicState.RECORD_OVERHEAD + |req.payload|) ==>
        TopicState.RECORD_OVERHEAD + |req.payload| < 0x1_0000_0000
      modifies this`stored, dedupWindow, connLimiter, globalLimiter
      modifies manager`consumerGroups
      modifies store`nextMsgId, store`queued, store`history
      modifies store.ringBuffer`tail, store.ringBuffer`records, store.ringBuffer.buffer
      ensures store.Valid() && connLimiter.Valid() && (globalLimiter != null ==> globalLimiter.Valid())
      ensures
        var one := TokenBuckets.Acquiring(1, now.limiters);
        var fresh0 := !IsDuplicate(config, old(dedupWindow.producers), req);
        var byConn := !config.rateLimitEnabled || TokenBuckets.Grants(old(connLimiter.Value()), one);
        var byAll := !config.rateLimitEnabled || globalLimiter == null || TokenBuckets.Grants(old(globalLimiter.Value()), one);
        && (response.Duplicated? <==> !fresh0)
        && (response.RateLimited? <==> fresh0 && !byConn)
        && (response.GloballyLimited? <==> fresh0 && byConn && !byAll)
        && connLimiter.Value() == (if config.rateLimitEnabled && fresh0
                                   then TokenBuckets.Step(old(connLimiter.Value()), one) else old(connLimiter.Value()))
        && (globalLimiter != null ==>
              globalLimiter.Value() == (if config.rateLimitEnabled && fresh0 && byConn
                                        then TokenBuckets.Step(old(globalLimiter.Value()), one) else old(globalLimiter.Value())))
        && store.Value() == (if fresh0 && byConn && byAll
                             then TopicState.Publish(old(store.Value()), req.payload, now.publish, now.timestamp,
                                                     if config.ttlEnabled then req.ttl else 0, response.Published?)
                             else old(store.Value()))
      ensures response.Published? ==> response.id == old(store.nextMsgId)
      ensures response.Duplicated? ==> response.sequence == req.sequence
      ensures response.Duplicated? <==>
        config.dedupEnabled && req.producer != "" && req.producer in old(dedupWindow.producers)
        && req.sequence <= old(dedupWindow.producers)[req.producer].maxSequence
      ensures response.Published? || response.BufferFull? ==>
        (response.Published? <==> old(store.ringBuffer.HasRoom(TopicState.RECORD_OVERHEAD + |req.payload|)))
      ensures manager.Valid()
      ensures if response.Published? then
                && PushedToAll(pushes, old(manager.View(req.topic, "").members), old(GroupsOf(manager.consumerGroups, req.topic)))
                && forall t, g :: manager.View(t, g) == Apply(old(manager.View(t, g)), Pushing(req.topic), t, g)
              else pushes == [] && manager.consumerGroups == old(manager.consumerGroups)
      ensures config.dedupEnabled ==>
        State() == Handle(old(State()), Publishing(req.producer, req.sequence,
                                                   !response.RateLimited? && !response.GloballyLimited?,
                                                   response.Published?, now.mark))
      ensures !response.Published? ==> dedupWindow.producers == old(dedupWindow.producers) && stored == old(stored)
      ensures response.Published? ==>
        && stored == old(stored) + [Stored(req.producer, req.sequence)]
        && (forall p :: p != req.producer || !config.dedupEnabled ==> Known(dedupWindow.producers, p) == Known(old(dedupWindow.producers), p))
        && (config.dedupEnabled && req.producer != "" ==>
              && req.producer in dedupWindow.producers
              && dedupWindow.producers[req.producer].maxSequence == req.sequence
              && dedupWindow.producers[req.producer].lastActive == now.mark)
      ensures !config.dedupEnabled ==> dedupWindow.producers == old(dedupWindow.producers)
    {
      hide TopicData.Valid, TokenBucket.Valid, Manager.Valid, PushedToAll, Apply, Lookup, GroupsOf;
      if config.dedupEnabled && req.producer != "" {
        var duplicate := dedupWindow.IsDuplicate(req.producer, req.sequence);
        if duplicate {
          return Duplicated(req.sequence), [];
        }
      }
      if config.rateLimitEnabled {
        var ok := connLimiter.Acquire(1, now.limiters);
        if !ok {
          return RateLimited, [];
        }
      }
      if config.rateLimitEnabled && globalLimiter != null {
        var ok := globalLimiter.Acquire(1, now.limiters);
        if !ok {
          return GloballyLimited, [];
        }
      }
      response, pushes := StoreAndMark(req, store, manager, now);
    }

    method StoreAndMark(req: Request, store: TopicData, manager: Manager, now: Clock)
      returns (response: Response, pushes: seq<nat>)
      requires manager.Valid()
      requires store.Valid() && !IsDuplicate(config, dedupWindow.producers, req)
      requires store.nextMsgId < 0x1_0000_0000_0000_0000 && now.timestamp < 0x1_0000_0000_0000_0000
      requires now.publish + req.ttl < 0x1_0000_0000_0000_0000
      requires store.ringBuffer.HasRoom(TopicState.RECORD_OVERHEAD + |req.payload|) ==>
        TopicState.RECORD_OVERHEAD + |req.payload| < 0x1_0000_0000
      modifies this`stored, dedupWindow
      modifies manager`consumerGroups
      modifies store`nextMsgId, store`queued, store`history
      modifies store.ringBuffer`tail, store.ringBuffer`records, store.ringBuffer.buffer
      ensures store.Valid() && (response.BufferFull? || response.Published?)
      ensures response.Published? <==> old(store.ringBuffer.HasRoom(TopicState.RECORD_OVERHEAD + |req.payload|))
      ensures store.Value() == TopicState.Publish(old(store.Value()), req.payload, now.publish, now.timestamp,
                                                  if config.ttlEnabled then req.ttl else 0, response.Published?)
      ensures response.Published? ==> response.id == old(store.nextMsgId)
      ensures manager.Valid()
      ensures if response.Published? then
                && PushedToAll(pushes, old(manager.View(req.topic, "").members), old(GroupsOf(manager.consumerGroups, req.topic)))
                && forall t, g :: manager.View(t, g) == Apply(old(manager.View(t, g)), Pushing(req.topic), t, g)
              else pushes == [] && manager.consumerGroups == old(manager.consumerGroups)
      ensures config.dedupEnabled ==>
        State() == Handle(old(State()), Publishing(req.producer, req.sequence, true, response.Published?, now.mark))
      ensures !response.Published? ==> dedupWindow.producers == old(dedupWindow.producers) && stored == old(stored)
      ensures response.Published? ==>
        && stored == old(stored) + [Stored(req.producer, req.sequence)]
        && (forall p :: p != req.producer || !config.dedupEnabled ==> Known(dedupWindow.producers, p) == Known(old(dedupWindow.producers), p))
        && (config.dedupEnabled && req.producer != "" ==>
              && req.producer in dedupWindow.producers
              && dedupWindow.producers[req.producer].maxSequence == req.sequence
              && dedupWindow.producers[req.producer].lastActive == now.mark)
      ensures !config.dedupEnabled ==> dedupWindow.producers == old(dedupWindow.producers)
    {
      hide TopicData.Valid, Manager.Valid, PushedToAll, Apply, Lookup, GroupsOf;
      var ttl := if config.ttlEnabled then req.ttl else 0;
      var success, id := store.Publish(req.payload, now.publish, now.timestamp, ttl);
      if !success {
        return BufferFull, [];
      }
      stored := stored + [Stored(req.producer, req.sequence)];
      pushes := PushOut(manager, req.topic);
      if config.dedupEnabled && req.producer != "" {
        dedupWindow.MarkProcessed(req.producer, req.sequence, now.mark);
      }
      response := Published(id);
    }
  }
}
