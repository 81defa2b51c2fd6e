/** How a message is laid out as a record of the ring. */
module TopicRecords {
  import opened Bytes
  import opened TopicState
  import opened Wrappers

  /** The fields fit the widths in which they are written. */
  predicate Fits(m: Message) {
    && m.id < 0x1_0000_0000_0000_0000
    && m.timestamp < 0x1_0000_0000_0000_0000
    && m.expiresAt < 0x1_0000_0000_0000_0000
    && |m.payload| < 0x1_0000_0000
    && m.retryCount == 0
  }

  function Record(m: Message): (r: seq<byte>)
    ensures |r| == RECORD_OVERHEAD + |m.payload|
  {
    BigEndian(m.id, 8) + BigEndian(m.timestamp, 8) + BigEndian(m.expiresAt, 8) + BigEndian(|m.payload|, 4) + m.payload
  }

  /** A record read back; one that is too short for its fields or its payload is skipped. */
  function ParseRecord(r: seq<byte>): Option<Message> {
    if |r| < RECORD_OVERHEAD then None
    else
      var size := FromBigEndian(r[24..28]);
      if |r| < RECORD_OVERHEAD + size then None
      else
        Some(Message(
          FromBigEndian(r[0..8]), r[28..28 + size], FromBigEndian(r[8..16]), 0, FromBigEndian(r[16..24])))
  }

  lemma RecordFields(m: Message)
    ensures var r := Record(m);
            && r[0..8] == BigEndian(m.id, 8)
            && r[8..16] == BigEndian(m.timestamp, 8)
            && r[16..24] == BigEndian(m.expiresAt, 8)
            && r[24..28] == BigEndian(|m.payload|, 4)
            && r[28..28 + |m.payload|] == m.payload
  {
  }

  /** A message comes back from its record exactly when its fields fit. */
  lemma RecordRoundTrip(m: Message)
    ensures ParseRecord(Record(m)) == Some(m) <==> Fits(m)
  {
    RecordFields(m);
    Pow256Values();
    BigEndianRoundTrip(m.id, 8);
    BigEndianRoundTrip(m.timestamp, 8);
    BigEndianRoundTrip(m.expiresAt, 8);
    BigEndianRoundTrip(|m.payload|, 4);
  }

  /** These are the records of these messages. */
  ghost predicate RecordsOf(records: seq<seq<byte>>, messages: seq<Message>) {
    && |records| == |messages|
    && forall i :: 0 <= i < |messages| ==> Fits(messages[i]) && records[i] == Record(messages[i])
  }

  lemma RecordsOfSnoc(records: seq<seq<byte>>, messages: seq<Message>, m: Message)
    requires RecordsOf(records, messages) && Fits(m)
    ensures RecordsOf(records + [Record(m)], messages + [m])
  {
  }

  lemma RecordsOfFirst(records: seq<seq<byte>>, messages: seq<Message>)
    requires RecordsOf(records, messages) && records != []
    ensures ParseRecord(records[0]) == Some(messages[0]) && |records[0]| == RECORD_OVERHEAD + |messages[0].payload|
    ensures RecordsOf(records[1..], messages[1..])
  {
    RecordRoundTrip(messages[0]);
  }

  lemma RecordsOfLength(records: seq<seq<byte>>, messages: seq<Message>)
    requires RecordsOf(records, messages)
    ensures |records| == |messages|
  {
  }

  /** The loop that appends a number byte by byte, most significant first. */
  method AppendBigEndian(buffer: seq<byte>, n: nat, width: nat) returns (r: seq<byte>)
    ensures r == buffer + BigEndian(n, width)
  {
    r := buffer;
    for i := 0 to width
      invariant r == buffer + BigEndian(n, width)[..i]
    {
      BigEndianAt(n, width, i);
      r := r + [n / Pow256(width - 1 - i) % 256];
    }
    assert BigEndian(n, width)[..width] == BigEndian(n, width);
  }

  method Serialize(m: Message) returns (r: seq<byte>)
    ensures r == Record(m)
  {
    r := AppendBigEndian([], m.id, 8);
    r := AppendBigEndian(r, m.timestamp, 8);
    r := AppendBigEndian(r, m.expiresAt, 8);
    r := AppendBigEndian(r, |m.payload|, 4);
    r := r + m.payload;
  }

  /** The loop that reads a number byte by byte. */
  method ReadBigEndian(buffer: seq<byte>, offset: nat, width: nat) returns (n: nat)
    requires offset + width <= |buffer|
    ensures n == FromBigEndian(buffer[offset..offset + width])
  {
    n := 0;
    for i := 0 to width
      invariant n == FromBigEndian(buffer[offset..offset + i])
    {
      FromBigEndianSnoc(buffer[offset..offset + i], buffer[offset + i]);
      assert buffer[offset..offset + i] + [buffer[offset + i]] == buffer[offset..offset + (i + 1)];
      n := n * 256 + buffer[offset + i];
    }
  }

  method Deserialize(r: seq<byte>) returns (m: Option<Message>)
    ensures m == ParseRecord(r)
  {
    if |r| < RECORD_OVERHEAD {
      return None;
    }
    var id := ReadBigEndian(r, 0, 8);
    var timestamp := ReadBigEndian(r, 8, 8);
    var expiresAt := ReadBigEndian(r, 16, 8);
    var size := ReadBigEndian(r, 24, 4);
    if |r| < RECORD_OVERHEAD + size {
      return None;
    }
    return Some(Message(id, r[28..28 + size], timestamp, 0, expiresAt));
  }
}
