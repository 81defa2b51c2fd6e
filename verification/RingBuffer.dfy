/** The byte stream that a sequence of length-prefixed records occupies in a ring. */
module RecordStream {
  import opened Bytes

  const HEADER_SIZE: nat := 4

  /** A record as the ring stores it: a four-byte length and the data. */
  function Framed(data: seq<byte>): seq<byte> {
    BigEndian(|data|, HEADER_SIZE) + data
  }

  function Stream(records: seq<seq<byte>>): seq<byte> {
    if records == [] then [] else Stream(records[..|records| - 1]) + Framed(records[|records| - 1])
  }

  /** Records whose length the header can hold; the ring refuses empty ones. */
  ghost predicate Sound(records: seq<seq<byte>>) {
    forall i :: 0 <= i < |records| ==> 0 < |records[i]| < 0x1_0000_0000
  }

  /** Cuts a stream back into records; stops at the first header that does not fit. */
  function Split(s: seq<byte>): seq<seq<byte>> {
    if |s| < HEADER_SIZE then [] else
      var len := FromBigEndian(s[..HEADER_SIZE]);
      if len == 0 || HEADER_SIZE + len > |s| then []
      else [s[HEADER_SIZE..HEADER_SIZE + len]] + Split(s[HEADER_SIZE + len..])
  }

  lemma StreamSnoc(records: seq<seq<byte>>, data: seq<byte>)
    ensures Stream(records + [data]) == Stream(records) + Framed(data)
  {
  }

  lemma {:induction false} StreamConcat(a: seq<seq<byte>>, b: seq<seq<byte>>)
    ensures Stream(a + b) == Stream(a) + Stream(b)
  {
    if b == [] {
      assert a + b == a;
    } else {
      var front, last := b[..|b| - 1], Framed(b[|b| - 1]);
      StreamConcat(a, front);
      assert (a + b)[..|a + b| - 1] == a + front;
      assert Stream(a + b) == Stream(a + front) + last;
      assert Stream(b) == Stream(front) + last;
      assert (Stream(a) + Stream(front)) + last == Stream(a) + (Stream(front) + last);
    }
  }

  lemma StreamCons(data: seq<byte>, rest: seq<seq<byte>>)
    ensures Stream([data] + rest) == Framed(data) + Stream(rest)
  {
    StreamConcat([data], rest);
    StreamSnoc([], data);
    assert [] + [data] == [data];
    assert Stream([]) == [];
  }

  /** The first record can be read off the front of a stream. */
  lemma StreamHead(records: seq<seq<byte>>)
    requires Sound(records) && records != []
    ensures Stream(records) == Framed(records[0]) + Stream(records[1..])
    ensures FromBigEndian(Stream(records)[..HEADER_SIZE]) == |records[0]|
    ensures HEADER_SIZE + |records[0]| <= |Stream(records)|
    ensures Stream(records)[HEADER_SIZE..HEADER_SIZE + |records[0]|] == records[0]
    ensures Stream(records)[HEADER_SIZE + |records[0]|..] == Stream(records[1..])
  {
    StreamCons(records[0], records[1..]);
    assert [records[0]] + records[1..] == records;
    Pow256Values();
    BigEndianRoundTrip(|records[0]|, HEADER_SIZE);
    assert Stream(records)[..HEADER_SIZE] == BigEndian(|records[0]|, HEADER_SIZE);
  }

  /** Splitting a stream gives back the records it was made of. */
  lemma {:induction false} SplitStream(records: seq<seq<byte>>)
    requires Sound(records)
    ensures Split(Stream(records)) == records
  {
    if records != [] {
      StreamHead(records);
      SplitStream(records[1..]);
    }
  }

  lemma StreamOfNothing(records: seq<seq<byte>>)
    ensures Stream(records) == [] <==> records == []
  {
  }

  lemma SnocSlice(s: seq<byte>, i: nat)
    requires i < |s|
    ensures FromBigEndian(s[..i + 1]) == FromBigEndian(s[..i]) * 256 + s[i]
  {
    FromBigEndianSnoc(s[..i], s[i]);
    assert s[..i + 1] == s[..i] + [s[i]];
  }

  lemma StreamTail(records: seq<seq<byte>>)
    requires records != []
    ensures |Framed(records[0])| <= |Stream(records)|
    ensures Stream(records)[|Framed(records[0])|..] == Stream(records[1..])
  {
    StreamCons(records[0], records[1..]);
    assert [records[0]] + records[1..] == records;
  }

  /** A record taken off the front shortens the stream of every slice by its framed bytes. */
  lemma SliceHeadLength(records: seq<seq<byte>>, a: nat, b: nat)
    requires a < b <= |records|
    ensures |Stream(records[a..b])| == |Framed(records[a])| + |Stream(records[a + 1..b])|
  {
    var slice := records[a..b];
    StreamCons(slice[0], slice[1..]);
    assert slice == [records[a]] + records[a + 1..b];
  }

  lemma RecordByte(records: seq<seq<byte>>, i: nat)
    requires Sound(records) && records != [] && i < |records[0]|
    ensures HEADER_SIZE + i < |Stream(records)| && Stream(records)[HEADER_SIZE + i] == records[0][i]
  {
  }

  /** A record added at the end lengthens the stream of every suffix by its framed bytes. */
  lemma StreamSuffixSnoc(records: seq<seq<byte>>, data: seq<byte>, k: nat)
    requires k <= |records|
    ensures Stream((records + [data])[k..]) == Stream(records[k..]) + Framed(data)
    ensures Stream((records + [data])[k..|records| + 1]) == Stream(records[k..]) + Framed(data)
  {
    assert (records + [data])[k..] == records[k..] + [data];
    assert (records + [data])[k..|records| + 1] == records[k..] + [data];
    StreamSnoc(records[k..], data);
  }

  /** Records before the end are not affected by one added there. */
  lemma SliceSnoc(records: seq<seq<byte>>, data: seq<byte>, a: nat, b: nat)
    requires a <= b <= |records|
    ensures (records + [data])[a..b] == records[a..b]
  {
  }

  lemma StreamPrefix(records: seq<seq<byte>>, n: nat)
    requires n <= |records|
    ensures |Stream(records[..n])| <= |Stream(records)|
    ensures Stream(records) == Stream(records[..n]) + Stream(records[n..])
  {
    StreamConcat(records[..n], records[n..]);
    assert records[..n] + records[n..] == records;
  }

  /** A record of 4 GiB or more is announced with a shorter length: the header is right just below that size. */
  lemma HeaderHoldsLength(len: nat)
    ensures FromBigEndian(BigEndian(len, HEADER_SIZE)) == len <==> len < 0x1_0000_0000
  {
    Pow256Values();
    BigEndianRoundTrip(len, HEADER_SIZE);
  }
}

/** The ring of src/ring_buffer, used by one thread at a time. */
module RingBuffer {
  import opened Bytes
  import opened Circular
  import opened RecordStream
  import opened Wrappers

  /** The record a pop hands out: none when empty, and none for ever when the first record is oversized. */
  function PopResult(records: seq<seq<byte>>): Option<seq<byte>> {
    if records == [] || |records[0]| > MAX_PAYLOAD_SIZE then None else Some(records[0])
  }

  function AfterPop(records: seq<seq<byte>>): seq<seq<byte>> {
    if PopResult(records).None? then records else records[1..]
  }

  class SpscRingBuffer {
    const capacity: nat
    const buffer: array<byte>
    var head: nat
    var tail: nat
    ghost var records: seq<seq<byte>>

    ghost predicate Valid()
      reads this, buffer
    {
      && buffer.Length == capacity > 0
      && head < capacity
      && Sound(records)
      && |Stream(records)| < capacity
      && tail == Slot(head, |Stream(records)|, capacity)
      && Holds(buffer[..], head, Stream(records))
    }

    constructor (size: nat)
      ensures Valid() && fresh(buffer)
      ensures capacity == size + 1 && records == []
    {
      capacity := size + 1;
      buffer := new byte[size + 1];
      head, tail := 0, 0;
      records := [];
    }

    function ReadableSize(): (n: nat)
      requires Valid()
      reads this, buffer
      ensures n == |Stream(records)|
    {
      DistanceIsModulo(head, |Stream(records)|, capacity);
      (tail + capacity - head) % capacity
    }

    function WritableSize(): (n: nat)
      requires Valid()
      reads this, buffer
      ensures n == capacity - 1 - |Stream(records)|
    {
      DistanceIsModulo(head, |Stream(records)|, capacity);
      (head + capacity - tail - 1) % capacity
    }

    /** There is room for the header and this much data. */
    ghost predicate HasRoom(len: nat)
      reads this
    {
      HEADER_SIZE + len < capacity - |Stream(records)|
    }

    /**
     A push that fits appends its record; one that does not changes nothing.
     The header cannot announce 4 GiB or more (see HeaderHoldsLength), which only a larger ring would take.
    */
    method Push(data: seq<byte>) returns (ok: bool)
      requires Valid() && (HasRoom(|data|) ==> |data| < 0x1_0000_0000)
      modifies this`tail, this`records, buffer
      ensures Valid()
      ensures ok <==> data != [] && HEADER_SIZE + |data| < capacity - |Stream(old(records))|
      ensures ok <==> data != [] && old(HasRoom(|data|))
      ensures records == if ok then old(records) + [data] else old(records)
      ensures !ok ==> buffer[..] == old(buffer[..]) && tail == old(tail)
    {
      if |data| == 0 || |data| > capacity - 1 {
        return false;
      }
      var total := HEADER_SIZE + |data|;
      var writable := WritableSize();
      if writable < total {
        return false;
      }
      ghost var framed := Framed(data);
      for i := 0 to HEADER_SIZE
        invariant unchanged(this) && Writing(framed, i)
      {
        BigEndianAt(|data|, HEADER_SIZE, i);
        Put(framed, i, |data| / Pow256(HEADER_SIZE - 1 - i) % 256);
      }
      for i := 0 to |data|
        invariant unchanged(this) && Writing(framed, HEADER_SIZE + i)
      {
        Put(framed, HEADER_SIZE + i, data[i]);
      }
      AdvanceTail(data);
      return true;
    }

    /** The release store that makes a written record visible. */
    method AdvanceTail(data: seq<byte>)
      requires 0 < |data| < 0x1_0000_0000 && Writing(Framed(data), HEADER_SIZE + |data|)
      modifies this`tail, this`records
      ensures Valid() && records == old(records) + [data]
    {
      ghost var framed := Framed(data);
      assert framed[..|framed|] == framed;
      StreamSnoc(records, data);
      PublishAppends(buffer[..], head, Stream(records), tail, framed);
      SlotIsModulo(tail, HEADER_SIZE + |data|, capacity);
      tail := (tail + (HEADER_SIZE + |data|)) % capacity;
      records := records + [data];
    }

    /** `i` bytes of the record `framed` have been written behind the unread ones, and fit there. */
    ghost predicate Writing(framed: seq<byte>, i: nat)
      reads this, buffer
    {
      && Valid()
      && i <= |framed| < capacity - |Stream(records)|
      && Holds(buffer[..], tail, framed[..i])
    }

    /** The assignment to `buffer_[(tail + i) % capacity_]`. */
    method Put(ghost framed: seq<byte>, i: nat, b: byte)
      requires Writing(framed, i) && i < |framed| && b == framed[i]
      modifies buffer
      ensures Writing(framed, i + 1)
    {
      WriteExtends(buffer[..], head, Stream(records), tail, framed, i);
      SlotIsModulo(tail, i, capacity);
      buffer[(tail + i) % capacity] := b;
      assert buffer[..] == old(buffer[..])[Slot(tail, i, capacity) := b];
    }

    /** A pop removes and returns the oldest record, unless there is none or it is oversized. */
    method Pop() returns (result: Option<seq<byte>>)
      requires Valid()
      modifies this`head, this`records
      ensures Valid()
      ensures result == PopResult(old(records)) && records == AfterPop(old(records))
    {
      DistanceIsModulo(head, |Stream(records)|, capacity);
      StreamOfNothing(records);
      if head == tail {
        return None;
      }
      StreamHead(records);
      var len := GetLength();
      if len == 0 || len > MAX_PAYLOAD_SIZE {
        return None;
      }
      var data := GetData(len);
      AdvanceHead(len);
      return Some(data);
    }

    /** The four length bytes, most significant first. */
    method GetLength() returns (len: nat)
      requires Valid() && records != []
      ensures len == |records[0]|
    {
      StreamHead(records);
      len := 0;
      for i := 0 to HEADER_SIZE
        invariant len == FromBigEndian(Stream(records)[..i])
      {
        SnocSlice(Stream(records), i);
        var b := Get(i);
        len := len * 256 + b;
      }
    }

    method GetData(len: nat) returns (data: seq<byte>)
      requires Valid() && records != [] && len == |records[0]|
      ensures data == records[0]
    {
      data := [];
      for i := 0 to len
        invariant |data| == i && data == records[0][..i]
      {
        RecordByte(records, i);
        var b := Get(HEADER_SIZE + i);
        data := data + [b];
      }
    }

    /** The release store that hands the room of the oldest record back to the producer. */
    method AdvanceHead(len: nat)
      requires Valid() && records != [] && len == |records[0]|
      modifies this`head, this`records
      ensures Valid() && records == old(records)[1..]
    {
      StreamHead(records);
      ConsumeDrops(buffer[..], head, Stream(records), HEADER_SIZE + len);
      SlotIsModulo(head, HEADER_SIZE + len, capacity);
      head := (head + HEADER_SIZE + len) % capacity;
      records := records[1..];
    }

    /** The byte `buffer_[(head + i) % capacity_]`. */
    method Get(i: nat) returns (b: byte)
      requires Valid() && i < |Stream(records)|
      ensures b == Stream(records)[i]
    {
      SlotIsModulo(head, i, capacity);
      b := buffer[(head + i) % capacity];
    }
  }

  /** The first record in a ring of this size can always be popped. */
  ghost predicate NeverStuck(size: nat) {
    forall records :: Sound(records) && records != [] && |Stream(records)| <= size ==> PopResult(records) == Some(records[0])
  }

  /**
   No stored record is ever refused, exactly if the ring was made for at most 16 MiB and a header, as the default one is;
   a larger ring takes a record that it never gives out again.
  */
  lemma NoRecordStuck(size: nat)
    ensures NeverStuck(size) <==> size <= MAX_PAYLOAD_SIZE + HEADER_SIZE
  {
    if size <= MAX_PAYLOAD_SIZE + HEADER_SIZE {
      forall records | Sound(records) && records != [] && |Stream(records)| <= size
        ensures PopResult(records) == Some(records[0])
      {
        StreamHead(records);
      }
    } else {
      var big := seq(MAX_PAYLOAD_SIZE + 1, _ => 0);
      StreamCons(big, []);
      assert Stream([]) == [] && [big] + [] == [big];
      assert Sound([big]) && |Stream([big])| <= size && PopResult([big]).None?;
    }
  }
}
