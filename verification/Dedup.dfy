/** The highest sequence number processed for each producer. */
module Dedup {
  datatype ProducerState = ProducerState(maxSequence: nat, lastActive: int)

  type Window = map<string, ProducerState>

  predicate Duplicate(w: Window, producer: string, sequence: nat) {
    producer != "" && producer in w && sequence <= w[producer].maxSequence
  }

  function Marked(w: Window, producer: string, sequence: nat, now: int): Window {
    if producer == "" then w
    else
      var before := if producer in w then w[producer].maxSequence else 0;
      w[producer := ProducerState(if sequence > before then sequence else before, now)]
  }

  /** Marking a sequence number makes it and the lower ones of the same producer duplicates, and nothing else. */
  lemma MarkedMeans(w: Window, producer: string, sequence: nat, now: int, p: string, s: nat)
    ensures Duplicate(Marked(w, producer, sequence, now), p, s) <==>
            Duplicate(w, p, s) || (p == producer != "" && s <= sequence)
  {
  }

  /** At most `limit` producers are left, as many as possible, and none that was less recently active than one removed. */
  ghost predicate KeepsMostRecent(before: Window, after: Window, limit: nat) {
    && after.Keys <= before.Keys
    && (forall p :: p in after ==> after[p] == before[p])
    && |after| == (if |before| <= limit then |before| else limit)
    && (forall k, r :: k in after && r in before && r !in after ==> before[r].lastActive <= before[k].lastActive)
  }

  datatype Entry = Entry(producer: string, lastActive: int)

  ghost predicate UniqueProducers(entries: seq<Entry>) {
    forall i, j :: 0 <= i < j < |entries| ==> entries[i].producer != entries[j].producer
  }

  ghost predicate Sorted(entries: seq<Entry>) {
    forall i, j :: 0 <= i < j < |entries| ==> entries[i].lastActive <= entries[j].lastActive
  }

  /** Puts one more entry into its place. */
  method Insert(sorted: seq<Entry>, e: Entry) returns (r: seq<Entry>)
    requires Sorted(sorted) && UniqueProducers(sorted) && forall o :: o in sorted ==> o.producer != e.producer
    ensures Sorted(r) && UniqueProducers(r) && multiset(r) == multiset(sorted) + multiset{e}
  {
    var j := 0;
    while j < |sorted| && sorted[j].lastActive <= e.lastActive
      invariant j <= |sorted|
      invariant forall i :: 0 <= i < j ==> sorted[i].lastActive <= e.lastActive
    {
      j := j + 1;
    }
    InsertAt(sorted, e, j);
    r := sorted[..j] + [e] + sorted[j..];
    assert sorted == sorted[..j] + sorted[j..];
  }

  lemma InsertAt(sorted: seq<Entry>, e: Entry, j: nat)
    requires Sorted(sorted) && UniqueProducers(sorted) && forall o :: o in sorted ==> o.producer != e.producer
    requires j <= |sorted| && (forall i :: 0 <= i < j ==> sorted[i].lastActive <= e.lastActive)
    requires j < |sorted| ==> e.lastActive < sorted[j].lastActive
    ensures Sorted(sorted[..j] + [e] + sorted[j..]) && UniqueProducers(sorted[..j] + [e] + sorted[j..])
  {
  }

  method SortByActivity(entries: seq<Entry>) returns (sorted: seq<Entry>)
    requires UniqueProducers(entries)
    ensures Sorted(sorted) && UniqueProducers(sorted) && multiset(sorted) == multiset(entries)
  {
    sorted := [];
    for i := 0 to |entries|
      invariant Sorted(sorted) && UniqueProducers(sorted) && multiset(sorted) == multiset(entries[..i])
    {
      SameElements(sorted, entries[..i]);
      sorted := Insert(sorted, entries[i]);
      assert entries[..i + 1] == entries[..i] + [entries[i]];
    }
    assert entries[..|entries|] == entries;
  }

  lemma SameElements(a: seq<Entry>, b: seq<Entry>)
    requires multiset(a) == multiset(b)
    ensures |a| == |b| && forall e :: e in a <==> e in b
  {
    assert |multiset(a)| == |a| && |multiset(b)| == |b|;
    assert forall e :: e in a <==> e in multiset(a);
    assert forall e :: e in b <==> e in multiset(b);
  }

  class DedupWindow {
    var producers: Window

    constructor ()
      ensures producers == map[]
    {
      producers := map[];
    }

    method IsDuplicate(producer: string, sequence: nat) returns (r: bool)
      ensures r <==> Duplicate(producers, producer, sequence)
    {
      if producer == "" {
        return false;
      }
      if producer !in producers {
        return false;
      }
      return sequence <= producers[producer].maxSequence;
    }

    method MarkProcessed(producer: string, sequence: nat, now: int)
      modifies this
      ensures producers == Marked(old(producers), producer, sequence, now)
    {
      if producer == "" {
        return;
      }
      var state := if producer in producers then producers[producer] else ProducerState(0, now);
      if sequence > state.maxSequence {
        state := state.(maxSequence := sequence);
      }
      producers := producers[producer := state.(lastActive := now)];
    }

    method RemoveProducer(producer: string)
      modifies this
      ensures producers == old(producers) - {producer}
    {
      producers := producers - {producer};
    }

    /** Removes the producers that have been inactive longest until `limit` are left. */
    method CleanupInactive(limit: nat)
      modifies this
      ensures KeepsMostRecent(old(producers), producers, limit)
    {
      if |producers| <= limit {
        return;
      }
      var entries := ListProducers();
      var sorted := SortByActivity(entries);
      SameElements(sorted, entries);
      EraseFirst(sorted, |producers| - limit);
    }

    method ListProducers() returns (entries: seq<Entry>)
      ensures UniqueProducers(entries) && |entries| == |producers|
      ensures forall e :: e in entries <==> e.producer in producers && e.lastActive == producers[e.producer].lastActive
    {
      entries := [];
      var todo := producers.Keys;
      while todo != {}
        invariant todo <= producers.Keys && |entries| + |todo| == |producers|
        invariant UniqueProducers(entries)
        invariant forall e :: e in entries <==>
          e.producer in producers && e.producer !in todo && e.lastActive == producers[e.producer].lastActive
        decreases todo
      {
        var p :| p in todo;
        assert forall i :: 0 <= i < |entries| ==> entries[i] in entries;
        entries := entries + [Entry(p, producers[p].lastActive)];
        todo := todo - {p};
      }
    }

    method EraseFirst(sorted: seq<Entry>, n: nat)
      requires n <= |sorted| == |producers| && Sorted(sorted) && UniqueProducers(sorted)
      requires forall e :: e in sorted <==> e.producer in producers && e.lastActive == producers[e.producer].lastActive
      modifies this
      ensures KeepsMostRecent(old(producers), producers, old(|producers|) - n)
    {
      for i := 0 to n
        invariant producers.Keys <= old(producers).Keys && |producers| == old(|producers|) - i
        invariant forall p :: p in producers ==> producers[p] == old(producers)[p]
        invariant forall j :: 0 <= j < |sorted| ==> (sorted[j].producer in producers <==> j >= i)
      {
        assert producers.Keys == (producers - {sorted[i].producer}).Keys + {sorted[i].producer};
        producers := producers - {sorted[i].producer};
      }
      forall k, r | k in producers && r in old(producers) && r !in producers
        ensures old(producers)[r].lastActive <= old(producers)[k].lastActive
      {
        var a, b := Entry(k, old(producers)[k].lastActive), Entry(r, old(producers)[r].lastActive);
        assert a in sorted && b in sorted;
      }
    }
  }
}
