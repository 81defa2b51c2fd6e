/**
 The ring shared by one producer and one consumer thread, one memory access a step.

 The values ever stored to an index are kept in their modification order. A thread reads its own index exactly;
 of the other thread's index it may get any value that is not older than one it has already seen.
 */
module RingThreads {
  import opened Bytes
  import opened Circular
  import opened RecordStream

  datatype Producer =
    | Idle
    | TailLoaded(data: seq<byte>, tail: nat)
    | Writing(data: seq<byte>, tail: nat, i: nat)

  datatype Consumer =
    | Waiting
    | HeadLoaded(head: nat)
    | ReadingLength(head: nat, i: nat, len: nat)
    | ReadingData(head: nat, len: nat, data: seq<byte>)

  /**
   The published state: `heads` and `tails` are the values stored to the two indices, oldest first;
   `pushed` and `popped` are the records that those stores published or consumed.
   */
  datatype Published = Published(heads: seq<nat>, tails: seq<nat>, pushed: seq<seq<byte>>, popped: seq<seq<byte>>)
  {
    ghost predicate Indexed(n: nat) {
      && |heads| == |popped| + 1
      && |tails| == |pushed| + 1
      && (forall k :: 0 <= k < |heads| ==> heads[k] < n)
      && (forall k :: 0 <= k < |tails| ==> tails[k] < n)
    }

    function Head(): nat
      requires heads != []
    {
      heads[|heads| - 1]
    }

    function Tail(): nat
      requires tails != []
    {
      tails[|tails| - 1]
    }

    /** The records pushed but not yet popped. */
    function Queued(): seq<seq<byte>>
      requires |popped| <= |pushed|
    {
      pushed[|popped|..]
    }
  }

  /** `seenPops` and `seenPushes` are the newest versions of the other thread's index each thread has read. */
  datatype Machine = Machine(
    buffer: seq<byte>,
    shared: Published,
    producer: Producer,
    seenPops: nat,
    consumer: Consumer,
    seenPushes: nat)

  datatype Step =
    | BeginPush(data: seq<byte>)
    | LoadHead(version: nat)
    | WriteByte
    | PublishTail
    | BeginPop
    | LoadTail(version: nat)
    | ReadByte
    | CheckLength
    | PublishHead

  function Init(size: nat): Machine {
    Machine(seq(size + 1, _ => 0), Published([0], [0], [], []), Idle, 0, Waiting, 0)
  }

  ghost predicate Formed(m: Machine) {
    |m.buffer| > 0 && m.shared.Indexed(|m.buffer|)
  }

  /** Which steps a thread can take next; a load may return any version the memory order allows. */
  predicate Enabled(m: Machine, step: Step) {
    match step
    case BeginPush(data) => m.producer.Idle? && (|data| < 0x1_0000_0000 || |data| >= |m.buffer|)
    case LoadHead(version) => m.producer.TailLoaded? && m.seenPops <= version < |m.shared.heads|
    case WriteByte => m.producer.Writing? && m.producer.i < HEADER_SIZE + |m.producer.data|
    case PublishTail => m.producer.Writing? && m.producer.i == HEADER_SIZE + |m.producer.data|
    case BeginPop => m.consumer.Waiting?
    case LoadTail(version) => m.consumer.HeadLoaded? && m.seenPushes <= version < |m.shared.tails|
    case ReadByte =>
      || (m.consumer.ReadingLength? && m.consumer.i < HEADER_SIZE)
      || (m.consumer.ReadingData? && |m.consumer.data| < m.consumer.len)
    case CheckLength => m.consumer.ReadingLength? && m.consumer.i == HEADER_SIZE
    case PublishHead => m.consumer.ReadingData? && |m.consumer.data| == m.consumer.len
  }

  function Do(m: Machine, step: Step): Machine
    requires Formed(m) && Enabled(m, step)
  {
    var n := |m.buffer|;
    match step
    case BeginPush(data) =>
      if |data| == 0 || |data| > n - 1 then m else m.(producer := TailLoaded(data, m.shared.Tail()))
    case LoadHead(version) =>
      m.(producer := CheckRoom(m.producer, m.shared.heads[version], n), seenPops := version)
    case WriteByte =>
      m.(buffer := m.buffer[WriteIndex(m.producer, n) := WrittenByte(m.producer)],
         producer := m.producer.(i := m.producer.i + 1))
    case PublishTail => m.(shared := StoreTail(m.shared, m.producer, n), producer := Idle)
    case BeginPop => m.(consumer := HeadLoaded(m.shared.Head()))
    case LoadTail(version) =>
      m.(consumer := CheckEmpty(m.consumer, m.shared.tails[version]), seenPushes := version)
    case ReadByte => m.(consumer := TakeByte(m.consumer, m.buffer[ReadIndex(m.consumer, n)]))
    case CheckLength =>
      var len := m.consumer.len;
      if len == 0 || len > MAX_PAYLOAD_SIZE then m.(consumer := Waiting)
      else m.(consumer := ReadingData(m.consumer.head, len, []))
    case PublishHead => m.(shared := StoreHead(m.shared, m.consumer, n), consumer := Waiting)
  }

  /** The push goes on when the room behind the loaded indices is enough, and gives up otherwise. */
  function CheckRoom(p: Producer, head: nat, n: nat): Producer
    requires p.TailLoaded? && n > 0
  {
    var writable := (head + n - p.tail - 1) % n;
    if writable < HEADER_SIZE + |p.data| then Idle else Writing(p.data, p.tail, 0)
  }

  function WriteIndex(p: Producer, n: nat): (index: nat)
    requires p.Writing? && n > 0
    ensures index < n
  {
    (p.tail + p.i) % n
  }

  function WrittenByte(p: Producer): byte
    requires p.Writing? && p.i < HEADER_SIZE + |p.data|
  {
    if p.i < HEADER_SIZE then |p.data| / Pow256(HEADER_SIZE - 1 - p.i) % 256 else p.data[p.i - HEADER_SIZE]
  }

  function StoreTail(s: Published, p: Producer, n: nat): Published
    requires p.Writing? && n > 0
  {
    s.(tails := s.tails + [(p.tail + (HEADER_SIZE + |p.data|)) % n], pushed := s.pushed + [p.data])
  }

  function CheckEmpty(c: Consumer, tail: nat): Consumer
    requires c.HeadLoaded?
  {
    if c.head == tail then Waiting else ReadingLength(c.head, 0, 0)
  }

  function ReadIndex(c: Consumer, n: nat): (index: nat)
    requires (c.ReadingLength? || c.ReadingData?) && n > 0
    ensures index < n
  {
    (c.head + ReadOffset(c)) % n
  }

  /** How far into the oldest record the consumer has read. */
  function ReadOffset(c: Consumer): nat
    requires c.ReadingLength? || c.ReadingData?
  {
    if c.ReadingLength? then c.i else HEADER_SIZE + |c.data|
  }

  function TakeByte(c: Consumer, b: byte): Consumer
    requires c.ReadingLength? || c.ReadingData?
  {
    if c.ReadingLength? then c.(i := c.i + 1, len := c.len * 256 + b) else c.(data := c.data + [b])
  }

  function StoreHead(s: Published, c: Consumer, n: nat): Published
    requires c.ReadingData? && n > 0
  {
    s.(heads := s.heads + [(c.head + (HEADER_SIZE + |c.data|)) % n], popped := s.popped + [c.data])
  }

  /** The invariant, one predicate for each thing that a step leaves alone or changes. */
  ghost predicate Inv(m: Machine) {
    && Formed(m)
    && OrderInv(m.shared, m.seenPops, m.seenPushes)
    && HeadsInv(m.shared, m.seenPops, |m.buffer|)
    && TailsInv(m.shared, |m.buffer|)
    && Holds(m.buffer, m.shared.Head(), Stream(m.shared.Queued()))
    && ProducerInv(m.producer, m.shared.Tail(), Free(m.shared, m.seenPops, |m.buffer|))
    && WrittenInv(m.producer, m.buffer)
    && ConsumerInv(m.consumer, m.shared, m.seenPushes)
  }

  ghost predicate OrderInv(s: Published, seenPops: nat, seenPushes: nat) {
    && Sound(s.pushed)
    && seenPops <= |s.popped| <= seenPushes <= |s.pushed|
    && s.popped == s.pushed[..|s.popped|]
  }

  /** Every head the producer may still read lies behind the tail by the records pushed since. */
  ghost predicate HeadsInv(s: Published, seenPops: nat, n: nat)
    requires s.Indexed(n)
  {
    forall k :: seenPops <= k <= |s.popped| && k <= |s.pushed| ==> HeadAt(s, k, n)
  }

  ghost predicate HeadAt(s: Published, k: nat, n: nat)
    requires s.Indexed(n) && k <= |s.popped| && k <= |s.pushed|
  {
    |Stream(s.pushed[k..])| < n && s.Tail() == Slot(s.heads[k], |Stream(s.pushed[k..])|, n)
  }

  /** Every tail the consumer may still read lies ahead of the head by the records between. */
  ghost predicate TailsInv(s: Published, n: nat)
    requires s.Indexed(n)
  {
    forall k :: |s.popped| <= k <= |s.pushed| ==> TailAt(s, k, n)
  }

  ghost predicate TailAt(s: Published, k: nat, n: nat)
    requires s.Indexed(n) && |s.popped| <= k <= |s.pushed|
  {
    && |Stream(s.pushed[|s.popped|..k])| < n
    && s.tails[k] == Slot(s.Head(), |Stream(s.pushed[|s.popped|..k])|, n)
  }

  /** The room behind the tail when only the first `seenPops` pops are known. */
  ghost function Free(s: Published, seenPops: nat, n: nat): int
    requires seenPops <= |s.pushed|
  {
    n - 1 - |Stream(s.pushed[seenPops..])|
  }

  ghost predicate ProducerInv(p: Producer, tail: nat, free: int) {
    match p
    case Idle => true
    case TailLoaded(data, t) => 0 < |data| < 0x1_0000_0000 && t == tail
    case Writing(data, t, i) => 0 < |data| < 0x1_0000_0000 && t == tail && i <= |Framed(data)| <= free
  }

  ghost predicate WrittenInv(p: Producer, buffer: seq<byte>) {
    p.Writing? ==> p.tail < |buffer| && p.i <= |Framed(p.data)| && Holds(buffer, p.tail, Framed(p.data)[..p.i])
  }

  ghost predicate ConsumerInv(c: Consumer, s: Published, seenPushes: nat)
    requires s.heads != []
  {
    match c
    case Waiting => true
    case HeadLoaded(head) => head == s.Head()
    case ReadingLength(head, i, len) =>
      && head == s.Head()
      && |s.popped| < seenPushes <= |s.pushed|
      && i <= HEADER_SIZE
      && len == FromBigEndian(Framed(s.pushed[|s.popped|])[..i])
    case ReadingData(head, len, data) =>
      && head == s.Head()
      && |s.popped| < seenPushes <= |s.pushed|
      && len == |s.pushed[|s.popped|]|
      && |data| <= len
      && data == s.pushed[|s.popped|][..|data|]
  }

  lemma InitInv(size: nat)
    ensures Inv(Init(size))
  {
  }

  lemma SuffixSplits(records: seq<seq<byte>>, a: nat, b: nat)
    requires a <= b <= |records|
    ensures Stream(records[a..]) == Stream(records[a..b]) + Stream(records[b..])
  {
    StreamPrefix(records[a..], b - a);
    assert records[a..][..b - a] == records[a..b];
    assert records[a..][b - a..] == records[b..];
  }

  /** The unread bytes are a suffix of what the producer counts as unread, so its room is real. */
  lemma RoomIsReal(m: Machine)
    requires Inv(m)
    ensures |Stream(m.shared.Queued())| <= |Stream(m.shared.pushed[m.seenPops..])| < |m.buffer|
    ensures m.shared.Tail() == Slot(m.shared.Head(), |Stream(m.shared.Queued())|, |m.buffer|)
  {
    SuffixSplits(m.shared.pushed, m.seenPops, |m.shared.popped|);
    assert HeadAt(m.shared, |m.shared.popped|, |m.buffer|);
    assert HeadAt(m.shared, m.seenPops, |m.buffer|);
  }

  lemma BeginKeepsInv(m: Machine, step: Step)
    requires Inv(m) && Enabled(m, step) && (step.BeginPush? || step.BeginPop?)
    ensures Inv(Do(m, step))
  {
  }

  lemma LoadHeadKeepsInv(m: Machine, version: nat)
    requires Inv(m) && Enabled(m, LoadHead(version))
    ensures Inv(Do(m, LoadHead(version)))
  {
    var s, n := m.shared, |m.buffer|;
    assert HeadAt(s, version, n);
    DistanceIsModulo(s.heads[version], |Stream(s.pushed[version..])|, n);
    var p := CheckRoom(m.producer, s.heads[version], n);
    if p.Writing? {
      assert Framed(p.data)[..0] == [];
    }
  }

  /** The byte goes to a slot that is not unread, and is the next byte of the framed record. */
  lemma WriteByteIsDisjoint(p: Producer, buffer: seq<byte>, head: nat, stored: seq<byte>)
    requires p.Writing? && p.i < HEADER_SIZE + |p.data| && head < |buffer|
    requires |stored| + |Framed(p.data)| < |buffer| && p.tail == Slot(head, |stored|, |buffer|)
    requires Holds(buffer, head, stored) && WrittenInv(p, buffer)
    ensures WriteIndex(p, |buffer|) == Slot(p.tail, p.i, |buffer|)
    ensures var buffer' := buffer[WriteIndex(p, |buffer|) := WrittenByte(p)];
            Holds(buffer', head, stored) && WrittenInv(p.(i := p.i + 1), buffer')
    ensures forall j :: 0 <= j < |stored| ==> Slot(head, j, |buffer|) != WriteIndex(p, |buffer|)
  {
    SlotIsModulo(p.tail, p.i, |buffer|);
    WrittenByteIsFramed(p);
    WriteExtends(buffer, head, stored, p.tail, Framed(p.data), p.i);
  }

  lemma WrittenByteIsFramed(p: Producer)
    requires p.Writing? && p.i < HEADER_SIZE + |p.data|
    ensures WrittenByte(p) == Framed(p.data)[p.i]
  {
    if p.i < HEADER_SIZE {
      BigEndianAt(|p.data|, HEADER_SIZE, p.i);
    }
  }

  lemma WriteByteKeepsInv(m: Machine)
    requires Inv(m) && Enabled(m, WriteByte)
    ensures Inv(Do(m, WriteByte))
  {
    RoomIsReal(m);
    WriteByteIsDisjoint(m.producer, m.buffer, m.shared.Head(), Stream(m.shared.Queued()));
  }

  lemma PublishTailKeepsOrder(s: Published, p: Producer, seenPops: nat, seenPushes: nat, n: nat)
    requires OrderInv(s, seenPops, seenPushes) && p.Writing? && 0 < |p.data| < 0x1_0000_0000 && n > 0
    ensures OrderInv(StoreTail(s, p, n), seenPops, seenPushes)
  {
  }

  lemma PublishTailKeepsHeads(s: Published, p: Producer, seenPops: nat, n: nat)
    requires n > 0 && s.Indexed(n) && HeadsInv(s, seenPops, n) && seenPops <= |s.popped| <= |s.pushed|
    requires p.Writing? && p.tail == s.Tail() && |Framed(p.data)| <= Free(s, seenPops, n)
    ensures StoreTail(s, p, n).Indexed(n) && HeadsInv(StoreTail(s, p, n), seenPops, n)
  {
    forall k | seenPops <= k <= |s.popped|
      ensures HeadAt(StoreTail(s, p, n), k, n)
    {
      assert HeadAt(s, k, n);
      SuffixShorter(s.pushed, seenPops, k);
      HeadAtAfterPublish(s, p, k, n);
    }
  }

  lemma HeadAtAfterPublish(s: Published, p: Producer, k: nat, n: nat)
    requires n > 0 && s.Indexed(n) && k <= |s.popped| <= |s.pushed| && HeadAt(s, k, n)
    requires p.Writing? && p.tail == s.Tail() && |Framed(p.data)| + |Stream(s.pushed[k..])| < n
    ensures StoreTail(s, p, n).Indexed(n) && HeadAt(StoreTail(s, p, n), k, n)
  {
    SlotIsModulo(p.tail, |Framed(p.data)|, n);
    StreamSuffixSnoc(s.pushed, p.data, k);
  }

  lemma SuffixShorter(records: seq<seq<byte>>, a: nat, b: nat)
    requires a <= b <= |records|
    ensures |Stream(records[b..])| <= |Stream(records[a..])|
  {
    SuffixSplits(records, a, b);
  }

  lemma PublishTailKeepsTails(s: Published, p: Producer, n: nat)
    requires n > 0 && s.Indexed(n) && TailsInv(s, n) && |s.popped| <= |s.pushed|
    requires p.Writing? && p.tail == s.Tail() && |Stream(s.Queued())| + |Framed(p.data)| < n
    ensures StoreTail(s, p, n).Indexed(n) && TailsInv(StoreTail(s, p, n), n)
  {
    forall k | |s.popped| <= k <= |s.pushed| + 1
      ensures TailAt(StoreTail(s, p, n), k, n)
    {
      if k <= |s.pushed| {
        assert TailAt(s, k, n);
        SliceSnoc(s.pushed, p.data, |s.popped|, k);
      } else {
        assert TailAt(s, |s.pushed|, n);
        NewTailIsBehindHead(s, p, n);
      }
    }
  }

  lemma NewTailIsBehindHead(s: Published, p: Producer, n: nat)
    requires n > 0 && s.Indexed(n) && |s.popped| <= |s.pushed| && TailAt(s, |s.pushed|, n)
    requires p.Writing? && p.tail == s.Tail() && |Stream(s.Queued())| + |Framed(p.data)| < n
    ensures StoreTail(s, p, n).Indexed(n) && TailAt(StoreTail(s, p, n), |s.pushed| + 1, n)
  {
    SlotIsModulo(p.tail, |Framed(p.data)|, n);
    StreamSuffixSnoc(s.pushed, p.data, |s.popped|);
    assert s.pushed[|s.popped|..|s.pushed|] == s.Queued();
  }

  lemma PublishTailKeepsData(s: Published, p: Producer, buffer: seq<byte>)
    requires |buffer| > 0 && s.Indexed(|buffer|) && |s.popped| <= |s.pushed|
    requires p.Writing? && p.i == |Framed(p.data)| && WrittenInv(p, buffer)
    requires Holds(buffer, s.Head(), Stream(s.Queued())) && |Stream(s.Queued())| + |Framed(p.data)| < |buffer|
    requires p.tail == Slot(s.Head(), |Stream(s.Queued())|, |buffer|)
    ensures Holds(buffer, s.Head(), Stream(StoreTail(s, p, |buffer|).Queued()))
  {
    assert Framed(p.data)[..p.i] == Framed(p.data);
    PublishAppends(buffer, s.Head(), Stream(s.Queued()), p.tail, Framed(p.data));
    StreamSuffixSnoc(s.pushed, p.data, |s.popped|);
  }

  lemma PublishTailKeepsInv(m: Machine)
    requires Inv(m) && Enabled(m, PublishTail)
    ensures Inv(Do(m, PublishTail))
  {
    hide Stream, HeadsInv, TailsInv, Holds;
    var s, p, n := m.shared, m.producer, |m.buffer|;
    RoomIsReal(m);
    PublishTailKeepsOrder(s, p, m.seenPops, m.seenPushes, n);
    PublishTailKeepsHeads(s, p, m.seenPops, n);
    PublishTailKeepsTails(s, p, n);
    PublishTailKeepsData(s, p, m.buffer);
    PublishTailKeepsConsumer(s, p, m.consumer, m.seenPushes, n);
  }

  lemma PublishTailKeepsConsumer(s: Published, p: Producer, c: Consumer, seenPushes: nat, n: nat)
    requires n > 0 && s.Indexed(n) && p.Writing? && ConsumerInv(c, s, seenPushes)
    ensures ConsumerInv(c, StoreTail(s, p, n), seenPushes)
  {
  }

  lemma LoadTailKeepsInv(m: Machine, version: nat)
    requires Inv(m) && Enabled(m, LoadTail(version))
    ensures Inv(Do(m, LoadTail(version)))
  {
    var s, n := m.shared, |m.buffer|;
    assert TailAt(s, version, n);
    if version == |s.popped| {
      assert s.pushed[|s.popped|..version] == [];
      assert Stream([]) == [];
    } else {
      assert Framed(s.pushed[|s.popped|])[..0] == [];
    }
  }

  /** The oldest record lies within the records the consumer has seen published. */
  lemma OldestRecord(s: Published, seenPushes: nat, n: nat)
    requires n > 0 && s.Indexed(n) && TailsInv(s, n) && Sound(s.pushed)
    requires |s.popped| < seenPushes <= |s.pushed|
    ensures |Framed(s.pushed[|s.popped|])| <= |Stream(s.pushed[|s.popped|..seenPushes])| < n
    ensures Framed(s.pushed[|s.popped|]) <= Stream(s.Queued())
  {
    assert TailAt(s, seenPushes, n);
    var seen := s.pushed[|s.popped|..seenPushes];
    assert seen[0] == s.pushed[|s.popped|];
    StreamHead(seen);
    assert s.Queued()[0] == s.pushed[|s.popped|];
    StreamHead(s.Queued());
  }

  ghost function Oldest(m: Machine): seq<byte>
    requires |m.shared.popped| < |m.shared.pushed|
  {
    Framed(m.shared.pushed[|m.shared.popped|])
  }

  /** A reading consumer's next byte is a byte of the oldest record, which was published before its tail was read. */
  lemma ReadByteIsPublished(m: Machine)
    requires Inv(m) && Enabled(m, ReadByte)
    ensures |m.shared.popped| < m.seenPushes <= |m.shared.pushed|
    ensures ReadOffset(m.consumer) < |Oldest(m)| <= |Stream(m.shared.pushed[|m.shared.popped|..m.seenPushes])| < |m.buffer|
    ensures ReadIndex(m.consumer, |m.buffer|) == Slot(m.shared.Head(), ReadOffset(m.consumer), |m.buffer|)
    ensures m.buffer[ReadIndex(m.consumer, |m.buffer|)] == Oldest(m)[ReadOffset(m.consumer)]
  {
    hide Stream, HeadsInv, TailsInv;
    OldestRecord(m.shared, m.seenPushes, |m.buffer|);
    SlotIsModulo(m.shared.Head(), ReadOffset(m.consumer), |m.buffer|);
    assert Stream(m.shared.Queued())[ReadOffset(m.consumer)] == Oldest(m)[ReadOffset(m.consumer)];
  }

  lemma ReadByteKeepsInv(m: Machine)
    requires Inv(m) && Enabled(m, ReadByte)
    ensures Inv(Do(m, ReadByte))
  {
    ReadByteIsPublished(m);
    if m.consumer.ReadingLength? {
      SnocSlice(Framed(m.shared.pushed[|m.shared.popped|]), m.consumer.i);
    }
  }

  lemma CheckLengthKeepsInv(m: Machine)
    requires Inv(m) && Enabled(m, CheckLength)
    ensures Inv(Do(m, CheckLength))
  {
    var record := m.shared.pushed[|m.shared.popped|];
    HeaderHoldsLength(|record|);
    assert Framed(record)[..HEADER_SIZE] == BigEndian(|record|, HEADER_SIZE);
  }

  lemma CurrentHead(s: Published, seenPops: nat, n: nat)
    requires n > 0 && s.Indexed(n) && HeadsInv(s, seenPops, n) && seenPops <= |s.popped| <= |s.pushed|
    ensures HeadAt(s, |s.popped|, n)
  {
  }

  lemma PublishHeadKeepsInv(m: Machine)
    requires Inv(m) && Enabled(m, PublishHead)
    ensures Inv(Do(m, PublishHead))
  {
    hide Stream, HeadsInv, TailsInv, HeadAt, Holds;
    var s, c, n := m.shared, m.consumer, |m.buffer|;
    assert c.data == s.pushed[|s.popped|];
    RoomIsReal(m);
    PublishHeadKeepsOrder(s, c, m.seenPops, m.seenPushes, n);
    CurrentHead(s, m.seenPops, n);
    PublishHeadKeepsHeads(s, c, m.seenPops, n);
    OldestRecord(s, m.seenPushes, n);
    PublishHeadKeepsTails(s, c, n);
    PublishHeadKeepsData(s, c, m.buffer);
    assert StoreHead(s, c, n).Tail() == s.Tail();
  }

  lemma PublishHeadKeepsOrder(s: Published, c: Consumer, seenPops: nat, seenPushes: nat, n: nat)
    requires OrderInv(s, seenPops, seenPushes) && n > 0
    requires |s.popped| < seenPushes && c.ReadingData? && c.data == s.pushed[|s.popped|]
    ensures OrderInv(StoreHead(s, c, n), seenPops, seenPushes)
  {
  }

  lemma PublishHeadKeepsData(s: Published, c: Consumer, buffer: seq<byte>)
    requires |buffer| > 0 && s.Indexed(|buffer|) && |s.popped| < |s.pushed|
    requires c.ReadingData? && c.head == s.Head() && c.data == s.pushed[|s.popped|]
    requires |Stream(s.Queued())| < |buffer| && Holds(buffer, s.Head(), Stream(s.Queued()))
    ensures var s' := StoreHead(s, c, |buffer|);
            s'.Indexed(|buffer|) && Holds(buffer, s'.Head(), Stream(s'.Queued()))
  {
    StreamTail(s.Queued());
    SlotIsModulo(c.head, |Framed(c.data)|, |buffer|);
    ConsumeDrops(buffer, c.head, Stream(s.Queued()), |Framed(c.data)|);
    assert StoreHead(s, c, |buffer|).Queued() == s.Queued()[1..];
  }

  lemma PublishHeadKeepsHeads(s: Published, c: Consumer, seenPops: nat, n: nat)
    requires n > 0 && s.Indexed(n) && HeadsInv(s, seenPops, n) && seenPops <= |s.popped| < |s.pushed| && Sound(s.pushed)
    requires HeadAt(s, |s.popped|, n)
    requires c.ReadingData? && c.head == s.Head() && c.data == s.pushed[|s.popped|]
    ensures StoreHead(s, c, n).Indexed(n) && HeadsInv(StoreHead(s, c, n), seenPops, n)
  {
    var s' := StoreHead(s, c, n);
    NextHeadIsBehindTail(s, c, n);
    forall k | seenPops <= k <= |s'.popped| && k <= |s'.pushed|
      ensures HeadAt(s', k, n)
    {
      if k <= |s.popped| {
        assert HeadAt(s, k, n);
      }
    }
  }

  lemma NextHeadIsBehindTail(s: Published, c: Consumer, n: nat)
    requires n > 0 && s.Indexed(n) && |s.popped| < |s.pushed| && Sound(s.pushed) && HeadAt(s, |s.popped|, n)
    requires c.ReadingData? && c.head == s.Head() && c.data == s.pushed[|s.popped|]
    ensures StoreHead(s, c, n).Indexed(n) && HeadAt(StoreHead(s, c, n), |s.popped| + 1, n)
  {
    SliceHeadLength(s.pushed, |s.popped|, |s.pushed|);
    SliceToEnd(s.pushed, |s.popped|);
    SliceToEnd(s.pushed, |s.popped| + 1);
    SlotIsModulo(c.head, |Framed(c.data)|, n);
  }

  lemma SliceToEnd(records: seq<seq<byte>>, a: nat)
    requires a <= |records|
    ensures records[a..] == records[a..|records|]
  {
  }

  lemma PublishHeadKeepsTails(s: Published, c: Consumer, n: nat)
    requires n > 0 && s.Indexed(n) && TailsInv(s, n) && |s.popped| < |s.pushed|
    requires c.ReadingData? && c.head == s.Head() && c.data == s.pushed[|s.popped|]
    requires |Framed(c.data)| < n
    ensures StoreHead(s, c, n).Indexed(n) && TailsInv(StoreHead(s, c, n), n)
  {
    forall k | |s.popped| + 1 <= k <= |s.pushed|
      ensures TailAt(StoreHead(s, c, n), k, n)
    {
      assert TailAt(s, k, n);
      TailAfterPop(s, c, k, n);
    }
  }

  lemma TailAfterPop(s: Published, c: Consumer, k: nat, n: nat)
    requires n > 0 && s.Indexed(n) && |s.popped| < k <= |s.pushed| && TailAt(s, k, n)
    requires c.ReadingData? && c.head == s.Head() && c.data == s.pushed[|s.popped|] && |Framed(c.data)| < n
    ensures StoreHead(s, c, n).Indexed(n) && TailAt(StoreHead(s, c, n), k, n)
  {
    SlotIsModulo(c.head, |Framed(c.data)|, n);
    SliceHeadLength(s.pushed, |s.popped|, k);
  }

  lemma StepKeepsInv(m: Machine, step: Step)
    requires Inv(m) && Enabled(m, step)
    ensures Inv(Do(m, step))
  {
    match step
    case BeginPush(_) => BeginKeepsInv(m, step);
    case LoadHead(version) => LoadHeadKeepsInv(m, version);
    case WriteByte => WriteByteKeepsInv(m);
    case PublishTail => PublishTailKeepsInv(m);
    case BeginPop => BeginKeepsInv(m, step);
    case LoadTail(version) => LoadTailKeepsInv(m, version);
    case ReadByte => ReadByteKeepsInv(m);
    case CheckLength => CheckLengthKeepsInv(m);
    case PublishHead => PublishHeadKeepsInv(m);
  }

  /** An interleaving: a sequence of machines, each one step of one thread after the one before. */
  ghost predicate IsRun(run: seq<Machine>) {
    && run != []
    && (exists size: nat :: run[0] == Init(size))
    && forall i :: 0 <= i < |run| - 1 ==> Next(run[i], run[i + 1])
  }

  ghost predicate Next(m: Machine, m': Machine) {
    Formed(m) && exists step :: Enabled(m, step) && m' == Do(m, step)
  }

  lemma {:induction false} RunKeepsInv(run: seq<Machine>, i: nat)
    requires IsRun(run) && i < |run|
    ensures Inv(run[i])
  {
    if i == 0 {
      var size: nat :| run[0] == Init(size);
      InitInv(size);
    } else {
      RunKeepsInv(run, i - 1);
      assert Next(run[i - 1], run[i]);
      var step :| Enabled(run[i - 1], step) && run[i] == Do(run[i - 1], step);
      StepKeepsInv(run[i - 1], step);
    }
  }

  /** The bytes between two indices, read with the index arithmetic of the ring. */
  function ReadBetween(buffer: seq<byte>, head: nat, tail: nat): seq<byte>
    requires head < |buffer| && tail < |buffer|
  {
    seq((tail + |buffer| - head) % |buffer|, j requires 0 <= j => buffer[(head + j) % |buffer|])
  }

  lemma ReadBetweenIsStored(buffer: seq<byte>, head: nat, stored: seq<byte>)
    requires head < |buffer| && |stored| < |buffer| && Holds(buffer, head, stored)
    ensures ReadBetween(buffer, head, Slot(head, |stored|, |buffer|)) == stored
  {
    DistanceIsModulo(head, |stored|, |buffer|);
    forall j | 0 <= j < |stored|
      ensures buffer[(head + j) % |buffer|] == stored[j]
    {
      SlotIsModulo(head, j, |buffer|);
    }
  }

  /** What is in the ring's bytes. */
  function Readable(m: Machine): seq<byte>
    requires Formed(m)
  {
    ReadBetween(m.buffer, m.shared.Head(), m.shared.Tail())
  }

  lemma ReadableIsQueued(m: Machine)
    requires Inv(m)
    ensures Readable(m) == Stream(m.shared.Queued())
  {
    RoomIsReal(m);
    ReadBetweenIsStored(m.buffer, m.shared.Head(), Stream(m.shared.Queued()));
  }

  /** Whatever the interleaving, the popped records and those still in the bytes are exactly the pushed ones, in order. */
  lemma FifoUnderEveryInterleaving(run: seq<Machine>, i: nat)
    requires IsRun(run) && i < |run|
    ensures Formed(run[i])
    ensures run[i].shared.popped + Split(Readable(run[i])) == run[i].shared.pushed
  {
    RunKeepsInv(run, i);
    ReadableIsQueued(run[i]);
    QueuedSplits(run[i].shared, run[i].seenPops, run[i].seenPushes);
  }

  lemma QueuedSplits(s: Published, seenPops: nat, seenPushes: nat)
    requires OrderInv(s, seenPops, seenPushes)
    ensures s.popped + Split(Stream(s.Queued())) == s.pushed
  {
    SplitStream(s.Queued());
    assert s.popped + s.Queued() == s.pushed;
  }

  /** No write of the producer lands on a slot that is unread, in particular on none the consumer may be reading. */
  lemma WritesMissUnread(run: seq<Machine>, i: nat, j: nat)
    requires IsRun(run) && i < |run| && Enabled(run[i], WriteByte)
    requires Formed(run[i]) && j < |Readable(run[i])|
    ensures WriteIndex(run[i].producer, |run[i].buffer|) != (run[i].shared.Head() + j) % |run[i].buffer|
    ensures Enabled(run[i], ReadByte) ==>
      WriteIndex(run[i].producer, |run[i].buffer|) != ReadIndex(run[i].consumer, |run[i].buffer|)
  {
    var m := run[i];
    RunKeepsInv(run, i);
    RoomIsReal(m);
    ReadableIsQueued(m);
    WriteByteIsDisjoint(m.producer, m.buffer, m.shared.Head(), Stream(m.shared.Queued()));
    SlotIsModulo(m.shared.Head(), j, |m.buffer|);
    if Enabled(m, ReadByte) {
      ReadByteIsPublished(m);
      OldestRecord(m.shared, m.seenPushes, |m.buffer|);
    }
  }

  /** Every read of the consumer takes a byte of a record whose publication it has seen. */
  lemma ReadsArePublished(run: seq<Machine>, i: nat)
    requires IsRun(run) && i < |run| && Enabled(run[i], ReadByte)
    ensures Formed(run[i])
    ensures var m := run[i];
            && |m.shared.popped| < m.seenPushes <= |m.shared.pushed|
            && ReadOffset(m.consumer) < |Oldest(m)|
            && m.buffer[ReadIndex(m.consumer, |m.buffer|)] == Oldest(m)[ReadOffset(m.consumer)]
  {
    RunKeepsInv(run, i);
    ReadByteIsPublished(run[i]);
  }

  /** A push that gives up saw too little room; as it may have read an old head, there can be more. */
  lemma PushGivesUpOnlyWhenFull(run: seq<Machine>, i: nat, version: nat)
    requires IsRun(run) && i < |run| && Enabled(run[i], LoadHead(version))
    ensures Formed(run[i]) && version <= |run[i].shared.pushed|
    ensures Do(run[i], LoadHead(version)).producer.Idle? <==>
      |Framed(run[i].producer.data)| + |Stream(run[i].shared.pushed[version..])| >= |run[i].buffer|
  {
    var m := run[i];
    RunKeepsInv(run, i);
    assert HeadAt(m.shared, version, |m.buffer|);
    DistanceIsModulo(m.shared.heads[version], |Stream(m.shared.pushed[version..])|, |m.buffer|);
  }

  lemma {:induction false} StreamIsLong(records: seq<seq<byte>>)
    requires records != []
    ensures |Stream(records)| >= HEADER_SIZE
  {
  }

  /** A pop finds the ring empty exactly when the tail it loaded was stored before any record that is still queued. */
  lemma PopGivesUpOnlyWhenEmpty(run: seq<Machine>, i: nat, version: nat)
    requires IsRun(run) && i < |run| && Enabled(run[i], LoadTail(version))
    ensures Formed(run[i]) && |run[i].shared.popped| <= version <= |run[i].shared.pushed|
    ensures Do(run[i], LoadTail(version)).consumer.Waiting? <==> version == |run[i].shared.popped|
  {
    hide Stream;
    var m := run[i];
    RunKeepsInv(run, i);
    assert TailAt(m.shared, version, |m.buffer|);
    var seen := m.shared.pushed[|m.shared.popped|..version];
    if version == |m.shared.popped| {
      assert seen == [];
      assert Stream([]) == [] by { EmptyStream(); }
    } else {
      StreamIsLong(seen);
    }
  }

  lemma EmptyStream()
    ensures Stream([]) == []
  {
  }

  /** A pop that has read a length goes on exactly if the oldest record is no longer than 16 MiB. */
  lemma PopRefusesOnlyOversized(run: seq<Machine>, i: nat)
    requires IsRun(run) && i < |run| && Enabled(run[i], CheckLength)
    ensures Formed(run[i]) && |run[i].shared.popped| < |run[i].shared.pushed|
    ensures Do(run[i], CheckLength).consumer.Waiting? <==> |run[i].shared.pushed[|run[i].shared.popped|]| > MAX_PAYLOAD_SIZE
  {
    hide Stream, HeadsInv, TailsInv;
    RunKeepsInv(run, i);
    var record := run[i].shared.pushed[|run[i].shared.popped|];
    assert record in run[i].shared.pushed;
    HeaderHoldsLength(|record|);
    assert Framed(record)[..HEADER_SIZE] == BigEndian(|record|, HEADER_SIZE);
  }

  /** Only an empty record, or one longer than the whole ring, is turned away before any index of the other thread is read. */
  lemma PushBegins(run: seq<Machine>, i: nat, data: seq<byte>)
    requires IsRun(run) && i < |run| && Enabled(run[i], BeginPush(data))
    ensures Formed(run[i])
    ensures Do(run[i], BeginPush(data)).producer.Idle? <==> data == [] || |data| >= |run[i].buffer|
  {
    RunKeepsInv(run, i);
  }

  /** How many steps of its own the producer can still take before its push has ended. */
  function PushSteps(p: Producer): int {
    match p
    case Idle => 0
    case TailLoaded(data, _) => HEADER_SIZE + |data| + 2
    case Writing(data, _, i) => HEADER_SIZE + |data| - i + 1
  }

  function PopSteps(c: Consumer): int {
    match c
    case Waiting => 0
    case HeadLoaded(_) => HEADER_SIZE + MAX_PAYLOAD_SIZE + 3
    case ReadingLength(_, i, _) => HEADER_SIZE - i + MAX_PAYLOAD_SIZE + 2
    case ReadingData(_, len, data) => len - |data| + 1
  }

  predicate IsPushStep(step: Step) {
    step.LoadHead? || step.WriteByte? || step.PublishTail?
  }

  predicate IsPopStep(step: Step) {
    step.LoadTail? || step.ReadByte? || step.CheckLength? || step.PublishHead?
  }

  /**
   Neither thread ever waits for the other: a push or pop that has begun always has a step to take, and each step brings
   it nearer to its end, whatever the other thread does in between.
  */
  lemma NobodyWaits(run: seq<Machine>, i: nat)
    requires IsRun(run) && i < |run|
    ensures Formed(run[i]) && PushSteps(run[i].producer) >= 0 && PopSteps(run[i].consumer) >= 0
    ensures !run[i].producer.Idle? ==> exists step :: IsPushStep(step) && Enabled(run[i], step)
    ensures !run[i].consumer.Waiting? ==> exists step :: IsPopStep(step) && Enabled(run[i], step)
    ensures forall step :: Enabled(run[i], step) && IsPushStep(step) ==>
      && PushSteps(Do(run[i], step).producer) < PushSteps(run[i].producer)
      && Do(run[i], step).consumer == run[i].consumer
    ensures forall step :: Enabled(run[i], step) && IsPopStep(step) ==>
      && PopSteps(Do(run[i], step).consumer) < PopSteps(run[i].consumer)
      && Do(run[i], step).producer == run[i].producer
  {
    hide IsRun, Inv, PushSteps, PopSteps, Enabled, Do;
    RunKeepsInv(run, i);
    var m := run[i];
    AlwaysAStep(m);
    forall step | Enabled(m, step)
      ensures IsPushStep(step) ==>
        PushSteps(Do(m, step).producer) < PushSteps(m.producer) && Do(m, step).consumer == m.consumer
      ensures IsPopStep(step) ==>
        PopSteps(Do(m, step).consumer) < PopSteps(m.consumer) && Do(m, step).producer == m.producer
    {
      StepNearer(m, step);
    }
  }

  lemma AlwaysAStep(m: Machine)
    requires Inv(m)
    ensures Formed(m) && PushSteps(m.producer) >= 0 && PopSteps(m.consumer) >= 0
    ensures !m.producer.Idle? ==> exists step :: IsPushStep(step) && Enabled(m, step)
    ensures !m.consumer.Waiting? ==> exists step :: IsPopStep(step) && Enabled(m, step)
  {
    hide Stream, HeadsInv, TailsInv, WrittenInv;
    if !m.producer.Idle? {
      assert Enabled(m, LoadHead(|m.shared.popped|)) || Enabled(m, WriteByte) || Enabled(m, PublishTail);
    }
    if !m.consumer.Waiting? {
      assert Enabled(m, LoadTail(|m.shared.pushed|)) || Enabled(m, ReadByte) || Enabled(m, CheckLength) || Enabled(m, PublishHead);
    }
  }

  lemma StepNearer(m: Machine, step: Step)
    requires Formed(m) && Enabled(m, step)
    ensures IsPushStep(step) ==>
      PushSteps(Do(m, step).producer) < PushSteps(m.producer) && Do(m, step).consumer == m.consumer
    ensures IsPopStep(step) ==>
      PopSteps(Do(m, step).consumer) < PopSteps(m.consumer) && Do(m, step).producer == m.producer
  {
  }
}
