/** One end of a connection: the sender with its spill buffer and the reader with its streaming codec. */
module Connection {
  import opened Bytes
  import opened Slices
  import opened FrameCodec
  import opened FrameParser
  import opened Chunking
  import opened Resynchronisation
  import opened StreamingCodec

  /** What a send or writev call returns: a byte count, EAGAIN, or another error. */
  datatype SendResult = Sent(count: nat) | WouldBlock | SendFailed

  /** What a recv call returns: bytes (none means that the peer has closed), EAGAIN, or another error. */
  datatype RecvResult = Chunk(bytes: seq<byte>) | NothingNow | RecvFailed

  function Min(a: nat, b: nat): nat {
    if a < b then a else b
  }

  /** The bytes that the calls have room for until one takes none. */
  function Room(kernel: seq<SendResult>): nat {
    if kernel == [] || !kernel[0].Sent? || kernel[0].count == 0 then 0 else kernel[0].count + Room(kernel[1..])
  }

  /** How many calls take bytes before one does not. */
  function Leading(kernel: seq<SendResult>): (n: nat)
    ensures n <= |kernel|
    ensures forall k :: 0 <= k < n ==> kernel[k].Sent? && kernel[k].count > 0
    ensures n < |kernel| ==> !kernel[n].Sent? || kernel[n].count == 0
  {
    if kernel == [] || !kernel[0].Sent? || kernel[0].count == 0 then 0 else 1 + Leading(kernel[1..])
  }

  /** The first call that takes nothing is no EAGAIN, and comes while there are still bytes to be taken. */
  predicate Breaking(kernel: seq<SendResult>, offered: nat) {
    var n := Leading(kernel);
    n < |kernel| && !kernel[n].WouldBlock? && Room(kernel) < offered
  }

  function First(kernel: seq<SendResult>): seq<SendResult> {
    if kernel == [] then [] else [kernel[0]]
  }

  /** What these calls take together. */
  function Total(calls: seq<SendResult>): nat
    requires forall k :: 0 <= k < |calls| ==> calls[k].Sent?
  {
    if calls == [] then 0 else Total(calls[..|calls| - 1]) + calls[|calls| - 1].count
  }

  lemma {:induction false} TotalCons(calls: seq<SendResult>)
    requires calls != [] && forall k :: 0 <= k < |calls| ==> calls[k].Sent?
    ensures Total(calls) == calls[0].count + Total(calls[1..])
  {
    var n := |calls| - 1;
    if n > 0 {
      TotalCons(calls[..n]);
      assert calls[..n][1..] == calls[1..][..n - 1];
    }
  }

  /** Calls that take bytes, then one that is blocked or none: there is room for what they take, and nothing breaks. */
  lemma {:induction false} BlockedExactly(kernel: seq<SendResult>, n: nat, offered: nat)
    requires n <= |kernel| && forall k :: 0 <= k < n ==> kernel[k].Sent? && kernel[k].count > 0
    requires n == |kernel| || kernel[n].WouldBlock?
    ensures Room(kernel) == Total(kernel[..n]) && !Breaking(kernel, offered)
  {
    if n > 0 {
      BlockedExactly(kernel[1..], n - 1, offered);
      TotalCons(kernel[..n]);
      assert kernel[..n][1..] == kernel[1..][..n - 1];
    }
  }

  /** Calls that take bytes, then one that fails: the connection breaks exactly if they have not taken all before. */
  lemma {:induction false} BreakingExactly(kernel: seq<SendResult>, n: nat, offered: nat)
    requires n < |kernel| && forall k :: 0 <= k < n ==> kernel[k].Sent? && kernel[k].count > 0
    requires kernel[n].SendFailed? || (kernel[n].Sent? && kernel[n].count == 0)
    ensures Room(kernel) == Total(kernel[..n])
    ensures Breaking(kernel, offered) <==> Total(kernel[..n]) < offered
  {
    if n == 0 {
      assert Leading(kernel) == 0;
    } else {
      BreakingExactly(kernel[1..], n - 1, offered);
      TotalCons(kernel[..n]);
      assert kernel[..n][1..] == kernel[1..][..n - 1] && Leading(kernel) == n;
    }
  }

  /** How many calls read bytes before one does not. */
  function Reads(kernel: seq<RecvResult>): (n: nat)
    ensures n <= |kernel|
    ensures forall k :: 0 <= k < n ==> kernel[k].Chunk? && kernel[k].bytes != []
    ensures n < |kernel| ==> !kernel[n].Chunk? || kernel[n].bytes == []
  {
    if kernel == [] || !kernel[0].Chunk? || kernel[0].bytes == [] then 0 else 1 + Reads(kernel[1..])
  }

  /** The bytes of these calls, one after another. */
  function Joined(calls: seq<RecvResult>): seq<byte>
    requires forall k :: 0 <= k < |calls| ==> calls[k].Chunk?
  {
    if calls == [] then [] else Joined(calls[..|calls| - 1]) + calls[|calls| - 1].bytes
  }

  /** Blocked calls never break a connection. */
  lemma NeverBreaks(kernel: seq<SendResult>, offered: nat)
    requires forall k :: 0 <= k < |kernel| ==> kernel[k].WouldBlock? || (kernel[k].Sent? && kernel[k].count > 0)
    ensures !Breaking(kernel, offered) && !Breaking(First(kernel), offered)
  {
  }

  class Connection {
    const zeroCopy: bool
    const maxWriteBuffer: nat
    const codec: StreamingFrameCodec
    var closed: bool
    var readBuffer: seq<byte>
    var writeBuffer: seq<byte>
    /** The frames given to the frame handler, in order. */
    var handled: seq<Frame>

    /** The bytes that the kernel has taken. */
    ghost var wire: seq<byte>
    /** The frames for which SendFrame returned true. */
    ghost var accepted: seq<Frame>
    /** The frame, if any, whose sending broke the connection. */
    ghost var failed: seq<Frame>
    /** The bytes that recv has returned. */
    ghost var arrived: seq<byte>
    /** Those of them given to the codec. */
    ghost var parsed: seq<byte>

    ghost predicate Valid()
      reads this, codec
    {
      && SenderValid()
      && ReaderValid()
    }

    /** Sent bytes and spilled bytes are the encodings of the accepted frames, nothing lost, doubled or out of order. */
    ghost predicate SenderValid()
      reads this
    {
      && (!closed ==> wire + writeBuffer == EncodeAll(accepted) && failed == [])
      && wire <= EncodeAll(accepted + failed)
      && |failed| <= 1
    }

    ghost predicate ReaderValid()
      reads this, codec
    {
      && (codec.Value(), handled) == Drain(FRESH.Append(parsed))
      && parsed + readBuffer == arrived
      && (!closed ==> readBuffer == [])
    }

    constructor (zeroCopy: bool, maxWriteBuffer: nat)
      ensures Valid() && !closed && fresh(codec)
      ensures accepted == [] && handled == [] && arrived == [] && writeBuffer == []
      ensures this.zeroCopy == zeroCopy && this.maxWriteBuffer == maxWriteBuffer
    {
      this.zeroCopy, this.maxWriteBuffer := zeroCopy, maxWriteBuffer;
      codec := new StreamingFrameCodec();
      closed, readBuffer, writeBuffer, handled := false, [], [], [];
      wire, accepted, failed, arrived, parsed := [], [], [], [], [];
    }

    method Close()
      modifies this`closed
      ensures closed
    {
      if !closed {
        closed := true;
      }
    }

    /** Nothing waits and zero copy is on, so that the frame goes out in a single call. */
    predicate Direct()
      reads this
    {
      writeBuffer == [] && zeroCopy
    }

    /**
     A frame is turned away when the connection is closed or the buffered bytes would become too many. Any other frame is
     taken as far as the calls have room for it. The rest waits, unless a call fails before all is taken: an error or a count
     of zero closes the connection, a blocked call does not.
    */
    method SendFrame(f: Frame, kernel: seq<SendResult>) returns (ok: bool)
      requires Valid()
      modifies this`closed, this`writeBuffer, this`wire, this`accepted, this`failed
      ensures Valid()
      ensures var all := |old(writeBuffer)| + FRAME_HEADER_SIZE + |f.payload|;
              var direct := old(writeBuffer) == [] && zeroCopy;
              var calls := if direct then First(kernel) else kernel;
              if old(closed) || (!direct && all > maxWriteBuffer) then !ok && unchanged(this)
              else
                && ok == !Breaking(calls, all) && closed == !ok
                && |old(writeBuffer) + Encoding(f)| == all
                && wire == old(wire) + (old(writeBuffer) + Encoding(f))[..Min(Room(calls), all)]
                && (ok ==> writeBuffer == (old(writeBuffer) + Encoding(f))[Min(Room(calls), all)..])
                && accepted == (if ok then old(accepted) + [f] else old(accepted))
                && failed == (if ok then [] else [f])
      ensures !old(closed)
              && ((old(writeBuffer) == [] && zeroCopy) || |old(writeBuffer)| + FRAME_HEADER_SIZE + |f.payload| <= maxWriteBuffer)
              && (forall k :: 0 <= k < |kernel| ==> kernel[k].WouldBlock? || (kernel[k].Sent? && kernel[k].count > 0)) ==>
        ok && !closed && wire + writeBuffer == old(wire + writeBuffer) + Encoding(f)
    {
      hide Room, Breaking, EncodeAll, Drain, Encoding;
      if closed {
        return false;
      }
      AddedLength(writeBuffer, f);
      if forall k :: 0 <= k < |kernel| ==> kernel[k].WouldBlock? || (kernel[k].Sent? && kernel[k].count > 0) {
        NeverBreaks(kernel, |writeBuffer + Encoding(f)|);
      }
      ghost var all, calls := writeBuffer + Encoding(f), if Direct() then First(kernel) else kernel;
      if writeBuffer != [] || !zeroCopy {
        var encoded := Encode(f);
        if |writeBuffer| + |encoded| > maxWriteBuffer {
          return false;
        }
        ok := SendBuffered(encoded, kernel);
      } else {
        ok := SendVectored(f, kernel);
        assert all == Encoding(f);
      }
      Record(old(writeBuffer), f, Min(Room(calls), |all|), ok);
    }

    lemma AddedLength(spilled: seq<byte>, f: Frame)
      ensures |spilled + Encoding(f)| == |spilled| + FRAME_HEADER_SIZE + |f.payload|
    {
    }

    /** Notes in the history what went out and what became of the frame. */
    ghost method Record(spilled: seq<byte>, f: Frame, taken: nat, ok: bool)
      requires failed == [] && wire + spilled == EncodeAll(accepted)
      requires taken <= |spilled + Encoding(f)| && closed == !ok
      requires ok ==> writeBuffer == (spilled + Encoding(f))[taken..]
      modifies this`wire, this`accepted, this`failed
      ensures SenderValid()
      ensures wire == old(wire) + (spilled + Encoding(f))[..taken]
      ensures wire + (spilled + Encoding(f))[taken..] == old(wire) + spilled + Encoding(f)
      ensures accepted == (if ok then old(accepted) + [f] else old(accepted))
      ensures failed == (if ok then [] else [f])
    {
      EncodeAllConcat(accepted, [f]);
      SingleEncoding(f);
      SentIsPrefix(wire, spilled, Encoding(f), taken);
      wire := wire + (spilled + Encoding(f))[..taken];
      if ok {
        accepted := accepted + [f];
        assert accepted + failed == accepted;
      } else {
        failed := [f];
      }
    }

    /** The path through `write_buffer_`: append, then send until the kernel blocks. */
    method SendBuffered(encoded: seq<byte>, kernel: seq<SendResult>) returns (ok: bool)
      requires !closed
      modifies this`closed, this`writeBuffer
      ensures var all := old(writeBuffer) + encoded;
              && ok == !Breaking(kernel, |all|) && closed == !ok
              && (ok ==> writeBuffer == all[Min(Room(kernel), |all|)..])
    {
      writeBuffer := writeBuffer + encoded;
      var totalSent, broken := SendLoop(writeBuffer, kernel);
      if broken {
        Close();
        return false;
      }
      if totalSent > 0 {
        writeBuffer := writeBuffer[totalSent..];
      }
      return true;
    }

    /** The calls of send, one after another. */
    method SendLoop(pending: seq<byte>, kernel: seq<SendResult>) returns (totalSent: nat, broken: bool)
      ensures totalSent == Min(Room(kernel), |pending|) && broken == Breaking(kernel, |pending|)
    {
      totalSent, broken := 0, false;
      var calls := 0;
      while totalSent < |pending|
        invariant totalSent <= |pending| && calls <= |kernel| && !broken
        invariant Leading(kernel) == calls + Leading(kernel[calls..]) && Room(kernel[calls..]) <= Room(kernel)
        invariant totalSent == Min(Room(kernel) - Room(kernel[calls..]), |pending|)
        decreases |kernel| - calls
      {
        if calls == |kernel| || kernel[calls].WouldBlock? {
          break;
        } else if kernel[calls].Sent? && kernel[calls].count > 0 {
          totalSent := totalSent + Min(kernel[calls].count, |pending| - totalSent);
          assert kernel[calls..][1..] == kernel[calls + 1..];
          calls := calls + 1;
        } else {
          return totalSent, true;
        }
      }
    }

    /** The zero-copy path: header and payload in one writev, the rest spilled into `write_buffer_`. */
    method SendVectored(f: Frame, kernel: seq<SendResult>) returns (ok: bool)
      requires !closed && writeBuffer == []
      modifies this`closed, this`writeBuffer
      ensures var all := Encoding(f);
              && ok == !Breaking(First(kernel), |all|) && closed == !ok
              && (ok ==> writeBuffer == all[Min(Room(First(kernel)), |all|)..])
    {
      var headerBuffer := new byte[FRAME_HEADER_SIZE];
      var headerSize := EncodeHeaderToBuffer(f, headerBuffer);
      var header := headerBuffer[..];
      assert header == Header(f);
      var total := headerSize + |f.payload|;
      if kernel != [] && kernel[0].Sent? && kernel[0].count > 0 {
        var sent := Min(kernel[0].count, total);
        if sent < total {
          Spill(header, f.payload, sent);
        }
        return true;
      } else if kernel == [] || kernel[0].WouldBlock? {
        Spill(header, f.payload, 0);
        return true;
      } else {
        Close();
        return false;
      }
    }

    /** Copies what is left of the header and of the payload into the empty `write_buffer_`. */
    method Spill(header: seq<byte>, payload: seq<byte>, sent: nat)
      requires writeBuffer == [] && sent <= |header| + |payload|
      modifies this`writeBuffer
      ensures writeBuffer == (header + payload)[sent..]
    {
      var remainingHeader := if sent < |header| then |header| - sent else 0;
      var payloadSent := if sent > |header| then sent - |header| else 0;
      var remainingPayload := |payload| - payloadSent;
      if remainingHeader > 0 {
        writeBuffer := writeBuffer + header[|header| - remainingHeader..];
      }
      if remainingPayload > 0 {
        writeBuffer := writeBuffer + payload[payloadSent..];
      }
    }

    /** Taking a first part of what was pending keeps what is on the wire a first part of the encodings. */
    lemma SentIsPrefix(sent: seq<byte>, spilled: seq<byte>, encoded: seq<byte>, n: nat)
      requires n <= |spilled + encoded|
      ensures sent + (spilled + encoded)[..n] <= (sent + spilled) + encoded
      ensures (sent + (spilled + encoded)[..n]) + (spilled + encoded)[n..] == (sent + spilled) + encoded
    {
    }

    lemma SingleEncoding(f: Frame)
      ensures EncodeAll([f]) == Encoding(f)
    {
    }

    /**
     Reads until a call has no bytes. When that is because there are none for now, every complete frame is handed to the
     handler; the end of the stream or an error closes the connection and hands over nothing.
    */
    method OnRead(kernel: seq<RecvResult>)
      requires Valid()
      modifies this`closed, this`readBuffer, this`handled, this`arrived, this`parsed, codec
      ensures Valid()
      ensures old(closed) ==> unchanged(this) && unchanged(codec)
      ensures !old(closed) ==>
        var n := Reads(kernel);
        && arrived == old(arrived) + Joined(kernel[..n])
        && (closed <==> n < |kernel| && !kernel[n].NothingNow?)
        && (closed ==> handled == old(handled) && parsed == old(parsed))
        && (!closed ==> parsed == arrived && old(handled) <= handled)
    {
      hide Drain, Joined, EncodeAll;
      if closed {
        return;
      }
      var ended := ReadAll(kernel);
      if ended {
        Close();
        return;
      }
      ParseArrived();
    }

    /** Moves the bytes read into the codec and drains it. */
    method ParseArrived()
      requires (codec.Value(), handled) == Drain(FRESH.Append(parsed)) && parsed + readBuffer == arrived
      modifies this`readBuffer, this`handled, this`parsed, codec
      ensures (codec.Value(), handled) == Drain(FRESH.Append(parsed)) && parsed == arrived && readBuffer == []
      ensures old(handled) <= handled
    {
      hide Drain;
      DrainAppend(FRESH.Append(parsed), readBuffer);
      AppendTwice(FRESH, parsed, readBuffer);
      codec.AppendData(readBuffer);
      readBuffer := [];
      parsed := arrived;
      HandleFrames();
    }

    /** The calls of recv, one after another. */
    method ReadAll(kernel: seq<RecvResult>) returns (ended: bool)
      requires readBuffer == [] && parsed == arrived
      modifies this`readBuffer, this`arrived
      ensures readBuffer == Joined(kernel[..Reads(kernel)]) && arrived == old(arrived) + readBuffer
      ensures ended <==> Reads(kernel) < |kernel| && !kernel[Reads(kernel)].NothingNow?
    {
      var calls := 0;
      while true
        invariant calls <= Reads(kernel)
        invariant readBuffer == Joined(kernel[..calls]) && arrived == old(arrived) + readBuffer
        decreases |kernel| - calls
      {
        if calls == |kernel| || kernel[calls].NothingNow? {
          return false;
        } else if kernel[calls].Chunk? && kernel[calls].bytes != [] {
          assert kernel[..calls + 1] == kernel[..calls] + [kernel[calls]];
          ConcatAssociative(old(arrived), readBuffer, kernel[calls].bytes);
          readBuffer := readBuffer + kernel[calls].bytes;
          arrived := arrived + kernel[calls].bytes;
          calls := calls + 1;
        } else {
          return true;
        }
      }
    }

    /** Parses and hands over frames until there is none. */
    method HandleFrames()
      modifies this`handled, codec
      ensures codec.Value() == old(Drain(codec.Value())).0
      ensures handled == old(handled) + old(Drain(codec.Value())).1
    {
      while true
        invariant old(Drain(codec.Value())).0 == Drain(codec.Value()).0
        invariant old(handled) + old(Drain(codec.Value())).1 == handled + Drain(codec.Value()).1
        decreases |codec.buffer|
      {
        var frame := codec.TryParseFrame();
        if frame.None? {
          break;
        }
        ConcatAssociative(handled, [frame.value], Drain(codec.Value()).1);
        handled := handled + [frame.value];
      }
    }
  }

  /**
   End to end: what the reader has handled is a prefix of the frames the sender accepted (with the one it failed on,
   if any), and all of them once every byte has crossed and been read.
   */
  lemma Delivered(sender: Connection, reader: Connection)
    requires sender.Valid() && reader.Valid()
    requires AllSendable(sender.accepted + sender.failed)
    requires reader.arrived <= sender.wire
    ensures reader.handled <= Received(sender.accepted + sender.failed)
    ensures !sender.closed && sender.writeBuffer == [] && !reader.closed && reader.arrived == sender.wire ==>
      reader.handled == Received(sender.accepted + sender.failed)
  {
    var frames := sender.accepted + sender.failed;
    PrefixHandled(frames, reader.parsed);
    if !sender.closed && sender.writeBuffer == [] && !reader.closed && reader.arrived == sender.wire {
      assert sender.wire + [] == sender.wire && frames == sender.accepted;
      assert reader.parsed + [] == reader.parsed;
    }
  }

  /** An open reader that has received whole frames has handled them all. */
  lemma WholeFramesHandled(reader: Connection, frames: seq<Frame>)
    requires reader.Valid() && !reader.closed && AllSendable(frames) && reader.arrived == EncodeAll(frames)
    ensures reader.handled == Received(frames)
  {
    assert reader.parsed + [] == reader.parsed;
    PrefixHandled(frames, reader.parsed);
  }

  lemma PrefixHandled(frames: seq<Frame>, bytes: seq<byte>)
    requires AllSendable(frames) && bytes <= EncodeAll(frames)
    ensures Drain(FRESH.Append(bytes)).1 <= Received(frames)
    ensures bytes == EncodeAll(frames) ==> Drain(FRESH.Append(bytes)).1 == Received(frames)
  {
    var unread := EncodeAll(frames)[|bytes|..];
    GarbageThenFrames([], frames);
    assert [] + EncodeAll(frames) == EncodeAll(frames) == bytes + unread;
    FrontYieldsPrefix(bytes, unread);
  }

  /** At any time, the frames handled are exactly those whose bytes have all been parsed. */
  lemma DeliveredSoFar(sender: Connection, reader: Connection, n: nat)
    requires sender.Valid() && reader.Valid() && reader.arrived <= sender.wire
    requires AllSendable(sender.accepted + sender.failed) && n <= |sender.accepted + sender.failed|
    requires |EncodeAll((sender.accepted + sender.failed)[..n])| <= |reader.parsed|
    requires n < |sender.accepted + sender.failed| ==>
      |reader.parsed| < |EncodeAll((sender.accepted + sender.failed)[..n + 1])|
    ensures reader.handled == Received((sender.accepted + sender.failed)[..n])
  {
    var frames := sender.accepted + sender.failed;
    var unread := EncodeAll(frames)[|reader.parsed|..];
    assert reader.parsed <= EncodeAll(frames);
    assert Flatten([reader.parsed]) == reader.parsed + [] == reader.parsed;
    PrefixYieldsExactly(frames, n, [reader.parsed], unread);
    assert Feed(FRESH, [reader.parsed]).1 == Drain(FRESH.Append(reader.parsed)).1 + [];
  }
}
