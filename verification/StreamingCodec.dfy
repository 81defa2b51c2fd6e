/** The resynchronising frame parser as a function of its state. */
module FrameParser {
  import opened Bytes
  import opened FrameCodec
  import opened Wrappers

  datatype ParseState = WaitingMagic | WaitingHeader | WaitingPayload

  datatype Parser = Parser(state: ParseState, buffer: seq<byte>, partial: Frame, payloadLength: nat)
  {
    function Append(data: seq<byte>): Parser {
      this.(buffer := buffer + data)
    }

    function Rank(): nat {
      match state
      case WaitingMagic => 2
      case WaitingHeader => 1
      case WaitingPayload => 0
    }
  }

  const FRESH := Parser(WaitingMagic, [], EMPTY_FRAME, 0)

  /** A parser with the frame it has returned, if any. */
  type Parsed = (Parser, Option<Frame>)

  datatype Outcome = Continue | NeedMore | Emit(frame: Frame)

  predicate MagicAt(s: seq<byte>, i: nat) {
    i + 4 <= |s| && Word(s, i) == FRAME_MAGIC
  }

  /** The first index at or after `from` where the magic stands, or None. */
  function FindMagic(s: seq<byte>, from: nat): (r: Option<nat>)
    ensures r.Some? ==> from <= r.value && MagicAt(s, r.value) && forall i :: from <= i < r.value ==> !MagicAt(s, i)
    ensures r.None? ==> forall i :: from <= i ==> !MagicAt(s, i)
    decreases |s| - from
  {
    if from + 4 > |s| then None
    else if MagicAt(s, from) then Some(from)
    else FindMagic(s, from + 1)
  }

  /** Without a magic only the last three bytes are kept: they may begin one. */
  function SyncMagic(p: Parser): (bool, Parser) {
    if |p.buffer| < 4 then (false, p)
    else
      match FindMagic(p.buffer, 0)
      case Some(i) => (true, p.(buffer := p.buffer[i..]))
      case None => (false, p.(buffer := p.buffer[|p.buffer| - 3..]))
  }

  /** A bad version or length gives up one byte and goes back to looking for a magic. */
  function ParseHeader(p: Parser): (bool, Parser) {
    if |p.buffer| < FRAME_HEADER_SIZE then (false, p)
    else if p.buffer[4] != FRAME_VERSION then (false, p.(buffer := p.buffer[1..], state := WaitingMagic))
    else
      var length := Word(p.buffer, 6);
      if length > MAX_PAYLOAD_SIZE then (false, p.(buffer := p.buffer[1..], state := WaitingMagic))
      else
        (true, p.(partial := Frame(FRAME_MAGIC, p.buffer[4], p.buffer[5], length, p.partial.payload), payloadLength := length))
  }

  function ParsePayload(p: Parser): (Option<Frame>, Parser) {
    var total := FRAME_HEADER_SIZE + p.payloadLength;
    if |p.buffer| < total then (None, p)
    else
      (Some(p.partial.(payload := p.buffer[FRAME_HEADER_SIZE..total])),
       p.(buffer := p.buffer[total..], partial := EMPTY_FRAME, payloadLength := 0))
  }

  /** One turn of the parsing loop. */
  function Iterate(p: Parser): (r: (Parser, Outcome))
    ensures r.1.Continue? ==> |r.0.buffer| < |p.buffer| || (|r.0.buffer| == |p.buffer| && r.0.Rank() < p.Rank())
    ensures r.1.Emit? ==> |r.0.buffer| < |p.buffer|
  {
    match p.state
    case WaitingMagic =>
      var (found, p') := SyncMagic(p);
      if found then (p'.(state := WaitingHeader), Continue) else (p', NeedMore)
    case WaitingHeader =>
      var (parsed, p') := ParseHeader(p);
      if parsed then (p'.(state := WaitingPayload), Continue)
      else if p'.state == WaitingMagic then (p', Continue)
      else (p', NeedMore)
    case WaitingPayload =>
      var (frame, p') := ParsePayload(p);
      if frame.Some? then (p'.(state := WaitingMagic), Emit(frame.value)) else (p', NeedMore)
  }

  /** Iterates until a frame is complete or the bytes run out. */
  function TryParse(p: Parser): (r: Parsed)
    ensures r.1.Some? ==> |r.0.buffer| < |p.buffer|
    decreases |p.buffer|, p.Rank()
  {
    var (p', outcome) := Iterate(p);
    match outcome
    case Continue => TryParse(p')
    case NeedMore => (p', None)
    case Emit(frame) => (p', Some(frame))
  }

  /** Parses frames until there is none: the loop of Connection::OnRead. */
  function Drain(p: Parser): (r: (Parser, seq<Frame>))
    decreases |p.buffer|
  {
    var (p', frame) := TryParse(p);
    if frame.None? then (p', []) else
      var (p'', frames) := Drain(p');
      (p'', [frame.value] + frames)
  }

  /** Appends each chunk in turn and drains after it. */
  function Feed(p: Parser, chunks: seq<seq<byte>>): (Parser, seq<Frame>)
    decreases |chunks|
  {
    if chunks == [] then (p, []) else
      var (p', frames) := Drain(p.Append(chunks[0]));
      var (p'', more) := Feed(p', chunks[1..]);
      (p'', frames + more)
  }

  function Flatten(chunks: seq<seq<byte>>): seq<byte> {
    if chunks == [] then [] else chunks[0] + Flatten(chunks[1..])
  }
}

/** Chunking independence: what is parsed does not depend on how the bytes arrive. */
module Chunking {
  import opened Bytes
  import opened FrameCodec
  import opened FrameParser
  import opened Wrappers

  lemma MagicInPrefix(s: seq<byte>, x: seq<byte>, i: nat)
    requires i + 4 <= |s|
    ensures MagicAt(s + x, i) <==> MagicAt(s, i)
  {
  }

  lemma MagicInSuffix(s: seq<byte>, d: nat, i: nat)
    requires d <= i <= |s|
    ensures MagicAt(s, i) <==> MagicAt(s[d..], i - d)
  {
  }

  lemma FindMagicIs(s: seq<byte>, i: nat)
    requires MagicAt(s, i) && forall j :: 0 <= j < i ==> !MagicAt(s, j)
    ensures FindMagic(s, 0) == Some(i)
  {
  }

  /** Where no magic starts among the first `d` bytes, the search can begin behind them. */
  lemma FindMagicAfterDrop(s: seq<byte>, d: nat)
    requires d <= |s| && forall i :: 0 <= i < d ==> !MagicAt(s, i)
    ensures match FindMagic(s[d..], 0)
            case Some(i) => FindMagic(s, 0) == Some(d + i)
            case None => FindMagic(s, 0) == None
  {
    forall i: nat | d <= i <= |s|
      ensures MagicAt(s, i) <==> MagicAt(s[d..], i - d)
    {
      MagicInSuffix(s, d, i);
    }
    match FindMagic(s[d..], 0)
    case Some(i) =>
      assert MagicAt(s, d + i);
      FindMagicIs(s, d + i);
    case None =>
      forall i: nat | i <= |s|
        ensures !MagicAt(s, i)
      {
        if d <= i {
          assert !MagicAt(s[d..], i - d);
        }
      }
  }

  /** Bytes that hold no magic can be dropped, but for the last three, before more bytes come. */
  lemma SyncAfterDrop(p: Parser, x: seq<byte>)
    requires |p.buffer| >= 4 && FindMagic(p.buffer, 0).None?
    ensures SyncMagic(p.Append(x)) == SyncMagic(p.(buffer := p.buffer[|p.buffer| - 3..]).Append(x))
  {
    var d := |p.buffer| - 3;
    var whole, rest := p.buffer + x, p.buffer[d..] + x;
    assert whole[d..] == rest;
    forall i | 0 <= i < d
      ensures !MagicAt(whole, i)
    {
      MagicInPrefix(p.buffer, x, i);
    }
    FindMagicAfterDrop(whole, d);
    match FindMagic(rest, 0)
    case Some(i) =>
      assert whole[d + i..] == rest[i..];
    case None =>
      assert whole[|whole| - 3..] == rest[|rest| - 3..];
  }

  /** A turn that makes progress makes the same progress with more bytes behind; one that does not can be taken again. */
  lemma IterateAppend(p: Parser, x: seq<byte>)
    ensures var (p', outcome) := Iterate(p);
            Iterate(p.Append(x)) == if outcome.NeedMore? then Iterate(p'.Append(x)) else (p'.Append(x), outcome)
  {
    var (p', outcome) := Iterate(p);
    match p.state
    case WaitingMagic => SyncAppend(p, x);
    case WaitingHeader => HeaderAppend(p, x);
    case WaitingPayload => PayloadAppend(p, x);
  }

  lemma SyncAppend(p: Parser, x: seq<byte>)
    requires p.state == WaitingMagic
    ensures var (p', outcome) := Iterate(p);
            Iterate(p.Append(x)) == if outcome.NeedMore? then Iterate(p'.Append(x)) else (p'.Append(x), outcome)
  {
    if |p.buffer| >= 4 {
      match FindMagic(p.buffer, 0)
      case Some(i) =>
        forall j | 0 <= j <= i
          ensures MagicAt(p.buffer + x, j) <==> MagicAt(p.buffer, j)
        {
          MagicInPrefix(p.buffer, x, j);
        }
        FindMagicIs(p.buffer + x, i);
        assert (p.buffer + x)[i..] == p.buffer[i..] + x;
      case None =>
        SyncAfterDrop(p, x);
    }
  }

  lemma HeaderAppend(p: Parser, x: seq<byte>)
    requires p.state == WaitingHeader
    ensures var (p', outcome) := Iterate(p);
            Iterate(p.Append(x)) == if outcome.NeedMore? then Iterate(p'.Append(x)) else (p'.Append(x), outcome)
  {
    if |p.buffer| >= FRAME_HEADER_SIZE {
      assert (p.buffer + x)[1..] == p.buffer[1..] + x;
      assert Word(p.buffer + x, 6) == Word(p.buffer, 6);
    }
  }

  lemma PayloadAppend(p: Parser, x: seq<byte>)
    requires p.state == WaitingPayload
    ensures var (p', outcome) := Iterate(p);
            Iterate(p.Append(x)) == if outcome.NeedMore? then Iterate(p'.Append(x)) else (p'.Append(x), outcome)
  {
    var total := FRAME_HEADER_SIZE + p.payloadLength;
    if |p.buffer| >= total {
      assert (p.buffer + x)[FRAME_HEADER_SIZE..total] == p.buffer[FRAME_HEADER_SIZE..total];
      assert (p.buffer + x)[total..] == p.buffer[total..] + x;
    }
  }

  lemma {:induction false} TryParseAppend(p: Parser, x: seq<byte>)
    ensures var (p', frame) := TryParse(p);
            TryParse(p.Append(x)) == if frame.None? then TryParse(p'.Append(x)) else (p'.Append(x), frame)
    decreases |p.buffer|, p.Rank()
  {
    IterateAppend(p, x);
    var (p', outcome) := Iterate(p);
    if outcome.Continue? {
      TryParseAppend(p', x);
    }
  }

  /** Draining, appending and draining again is appending first and draining once. */
  lemma {:induction false} DrainAppend(p: Parser, x: seq<byte>)
    ensures var (p', frames) := Drain(p);
            var (p'', more) := Drain(p'.Append(x));
            Drain(p.Append(x)) == (p'', frames + more)
    decreases |p.buffer|
  {
    TryParseAppend(p, x);
    var (q, frame) := TryParse(p);
    if frame.None? {
      assert Drain(p.Append(x)) == Drain(q.Append(x));
      assert [] + Drain(q.Append(x)).1 == Drain(q.Append(x)).1;
    } else {
      DrainAppend(q, x);
      var (p', frames) := Drain(q);
      var (p'', more) := Drain(p'.Append(x));
      assert [frame.value] + (frames + more) == ([frame.value] + frames) + more;
    }
  }

  lemma AppendTwice(p: Parser, a: seq<byte>, b: seq<byte>)
    ensures p.Append(a).Append(b) == p.Append(a + b)
  {
    assert (p.buffer + a) + b == p.buffer + (a + b);
  }

  /** A drained parser has nothing more to give. */
  lemma {:induction false} DrainIdempotent(p: Parser)
    ensures Drain(Drain(p).0) == (Drain(p).0, [])
    decreases |p.buffer|
  {
    TryParseAppend(p, []);
    var (q, frame) := TryParse(p);
    assert p.Append([]) == p && q.Append([]) == q;
    if frame.Some? {
      DrainIdempotent(q);
    }
  }

  /** However a byte stream is cut into chunks, the frames and the state it leaves are those of the whole stream. */
  lemma {:induction false} ChunkingIndependent(p: Parser, chunks: seq<seq<byte>>)
    requires Drain(p) == (p, [])
    ensures Feed(p, chunks) == Drain(p.Append(Flatten(chunks)))
    decreases |chunks|
  {
    if chunks == [] {
      assert p.Append([]) == p;
    } else {
      var first := p.Append(chunks[0]);
      var (p', frames) := Drain(first);
      DrainIdempotent(first);
      ChunkingIndependent(p', chunks[1..]);
      DrainAppend(first, Flatten(chunks[1..]));
      assert first.Append(Flatten(chunks[1..])) == p.Append(Flatten(chunks)) by {
        assert (p.buffer + chunks[0]) + Flatten(chunks[1..]) == p.buffer + (chunks[0] + Flatten(chunks[1..]));
      }
    }
  }

  /** Two ways of cutting the same bytes cannot be told apart. */
  lemma SameBytesSameFrames(p: Parser, a: seq<seq<byte>>, b: seq<seq<byte>>)
    requires Drain(p) == (p, []) && Flatten(a) == Flatten(b)
    ensures Feed(p, a) == Feed(p, b)
  {
    ChunkingIndependent(p, a);
    ChunkingIndependent(p, b);
  }
}

/** Resynchronisation: garbage before a frame costs no frame. */
module Resynchronisation {
  import opened Bytes
  import opened Slices
  import opened FrameCodec
  import opened FrameParser
  import opened Chunking
  import opened Wrappers

  function EncodeAll(frames: seq<Frame>): seq<byte> {
    if frames == [] then [] else Encoding(frames[0]) + EncodeAll(frames[1..])
  }

  ghost predicate AllSendable(frames: seq<Frame>) {
    forall i :: 0 <= i < |frames| ==> Sendable(frames[i])
  }

  /** The frames as the receiver sees them. */
  function Received(frames: seq<Frame>): (r: seq<Frame>)
    requires AllSendable(frames)
    ensures |r| == |frames|
    ensures forall i :: 0 <= i < |frames| ==> r[i] == Canonical(frames[i])
  {
    if frames == [] then [] else [Canonical(frames[0])] + Received(frames[1..])
  }

  ghost predicate NoMagic(s: seq<byte>) {
    forall i :: 0 <= i ==> !MagicAt(s, i)
  }

  /** The first byte of the magic occurs nowhere else in it, so a magic cannot begin inside garbage and end in another magic. */
  lemma MagicIsUnbordered(g: seq<byte>, s: seq<byte>, i: nat)
    requires NoMagic(g) && MagicAt(s, 0) && i < |g|
    ensures !MagicAt(g + s, i)
  {
    var whole := g + s;
    assert s[0] == 0xDE && s[1] == 0xAD && s[2] == 0xBE && s[3] == 0xEF by { MagicBytes(s, 0); }
    if i + 4 <= |g| {
      MagicInPrefix(g, s, i);
    } else {
      assert whole[|g|] == 0xDE;
    }
  }

  lemma MagicBytes(s: seq<byte>, i: nat)
    requires MagicAt(s, i)
    ensures s[i] == 0xDE && s[i + 1] == 0xAD && s[i + 2] == 0xBE && s[i + 3] == 0xEF
  {
  }

  /** A waiting parser with garbage, a sendable frame and more bytes returns the frame and keeps those bytes. */
  lemma ParseBehindGarbage(g: seq<byte>, f: Frame, rest: seq<byte>)
    requires NoMagic(g) && Sendable(f)
    ensures TryParse(FRESH.(buffer := g + (Encoding(f) + rest))) == (FRESH.(buffer := rest), Some(Canonical(f)))
  {
    var s := Encoding(f) + rest;
    var p := FRESH.(buffer := g + s);
    EncodingFields(f, rest);
    assert MagicAt(s, 0);
    forall i | 0 <= i < |g|
      ensures !MagicAt(p.buffer, i)
    {
      MagicIsUnbordered(g, s, i);
    }
    MagicInSuffix(p.buffer, |g|, |g|);
    assert p.buffer[|g|..] == s;
    FindMagicIs(p.buffer, |g|);
    ParseFromMagic(f, rest);
  }

  lemma ParseFromMagic(f: Frame, rest: seq<byte>)
    requires Sendable(f)
    ensures TryParse(Parser(WaitingHeader, Encoding(f) + rest, EMPTY_FRAME, 0)) == (FRESH.(buffer := rest), Some(Canonical(f)))
  {
    var s := Encoding(f) + rest;
    EncodingFields(f, rest);
    HeaderThenPayload(s);
    assert s[FRAME_HEADER_SIZE + |f.payload|..] == rest;
  }

  /** Two turns of the loop take a good header and its payload. */
  lemma HeaderThenPayload(s: seq<byte>)
    requires GoodHeader(s) && HasCompleteFrame(s)
    ensures TryParse(Parser(WaitingHeader, s, EMPTY_FRAME, 0)) ==
      (FRESH.(buffer := s[TryDecode(s).consumed..]), Some(TryDecode(s).frame))
  {
  }

  /** Any bytes without a magic, then sendable frames: exactly those frames come out and nothing is left behind. */
  lemma {:induction false} GarbageThenFrames(g: seq<byte>, frames: seq<Frame>)
    requires NoMagic(g) && AllSendable(frames)
    ensures Drain(FRESH.Append(g + EncodeAll(frames))).1 == Received(frames)
    ensures frames != [] || g == [] ==> Drain(FRESH.Append(g + EncodeAll(frames))).0 == FRESH
    decreases |frames|
  {
    if frames == [] {
      GarbageOnly(g);
      assert g + EncodeAll(frames) == g;
    } else {
      DrainBehindGarbage(g, frames[0], EncodeAll(frames[1..]));
      GarbageThenFrames([], frames[1..]);
      assert [] + EncodeAll(frames[1..]) == EncodeAll(frames[1..]);
    }
  }

  lemma GarbageOnly(g: seq<byte>)
    requires NoMagic(g)
    ensures Drain(FRESH.Append(g)).1 == []
    ensures g == [] ==> Drain(FRESH.Append(g)).0 == FRESH
  {
    assert FRESH.Append(g).buffer == g;
    assert FindMagic(g, 0).None?;
  }

  lemma DrainBehindGarbage(g: seq<byte>, f: Frame, rest: seq<byte>)
    requires NoMagic(g) && Sendable(f)
    ensures Drain(FRESH.Append(g + (Encoding(f) + rest))).0 == Drain(FRESH.Append(rest)).0
    ensures Drain(FRESH.Append(g + (Encoding(f) + rest))).1 == [Canonical(f)] + Drain(FRESH.Append(rest)).1
  {
    hide TryParse, Encoding, Canonical, NoMagic;
    var all := g + (Encoding(f) + rest);
    ParseBehindGarbage(g, f, rest);
    assert [] + all == all && [] + rest == rest;
    assert TryParse(FRESH.Append(all)) == (FRESH.Append(rest), Some(Canonical(f)));
  }

  /** The same through any cutting into chunks. */
  lemma GarbageThenFramesChunked(g: seq<byte>, frames: seq<Frame>, chunks: seq<seq<byte>>)
    requires NoMagic(g) && AllSendable(frames) && Flatten(chunks) == g + EncodeAll(frames)
    ensures Feed(FRESH, chunks).1 == Received(frames)
  {
    GarbageThenFrames(g, frames);
    ChunkingIndependent(FRESH, chunks);
  }

  lemma {:induction false} EncodeAllConcat(a: seq<Frame>, b: seq<Frame>)
    ensures EncodeAll(a + b) == EncodeAll(a) + EncodeAll(b)
  {
    if a == [] {
      assert a + b == b;
    } else {
      EncodeAllConcat(a[1..], b);
      assert (a + b)[1..] == a[1..] + b;
      ConcatAssociative(Encoding(a[0]), EncodeAll(a[1..]), EncodeAll(b));
    }
  }

  /** What is parsed from the front of a stream is a prefix of what is parsed from all of it. */
  lemma FrontYieldsPrefix(front: seq<byte>, back: seq<byte>)
    ensures Drain(FRESH.Append(front)).1 <= Drain(FRESH.Append(front + back)).1
  {
    hide Drain;
    DrainAppend(FRESH.Append(front), back);
    AppendTwice(FRESH, front, back);
  }

  lemma EncodeAllPrefix(frames: seq<Frame>, n: nat)
    requires n <= |frames|
    ensures EncodeAll(frames) == EncodeAll(frames[..n]) + EncodeAll(frames[n..])
  {
    TakeDrop(frames, n);
    EncodeAllConcat(frames[..n], frames[n..]);
  }

  /** What the parser sees of an incomplete frame. */
  lemma PartialFields(f: Frame, k: nat)
    requires Sendable(f) && k < |Encoding(f)|
    ensures k >= 4 ==> MagicAt(Encoding(f)[..k], 0)
    ensures k >= FRAME_HEADER_SIZE ==> GoodHeader(Encoding(f)[..k]) && !HasCompleteFrame(Encoding(f)[..k])
  {
    EncodingFields(f, []);
    assert Encoding(f) + [] == Encoding(f);
    assert forall i :: 0 <= i < k ==> Encoding(f)[..k][i] == Encoding(f)[i];
  }

  lemma PartialHeaderWaits(s: seq<byte>)
    requires |s| < FRAME_HEADER_SIZE || (GoodHeader(s) && !HasCompleteFrame(s))
    ensures TryParse(Parser(WaitingHeader, s, EMPTY_FRAME, 0)).1 == None
  {
  }

  /** An incomplete frame yields nothing yet. */
  lemma PartialFrameWaits(f: Frame, k: nat)
    requires Sendable(f) && k < |Encoding(f)|
    ensures Drain(FRESH.Append(Encoding(f)[..k])).1 == []
  {
    hide GoodHeader, HasCompleteFrame, Encoding;
    var s, p := Encoding(f)[..k], FRESH.Append(Encoding(f)[..k]);
    PartialFields(f, k);
    PartialHeaderWaits(s);
    assert p.buffer == s;
    if k >= 4 {
      assert FindMagic(s, 0) == Some(0) && s[0..] == s;
      assert Iterate(p) == (Parser(WaitingHeader, s, EMPTY_FRAME, 0), Continue);
    }
  }

  /** The first bytes of a stream of frames, in any chunks, yield exactly the frames that are complete in them. */
  lemma PrefixYieldsExactly(frames: seq<Frame>, n: nat, chunks: seq<seq<byte>>, unread: seq<byte>)
    requires AllSendable(frames) && n <= |frames|
    requires Flatten(chunks) + unread == EncodeAll(frames)
    requires |EncodeAll(frames[..n])| <= |Flatten(chunks)|
    requires n < |frames| ==> |Flatten(chunks)| < |EncodeAll(frames[..n + 1])|
    ensures Feed(FRESH, chunks).1 == Received(frames[..n])
  {
    var got, first := Flatten(chunks), EncodeAll(frames[..n]);
    var partial := got[|first|..];
    ChunkingIndependent(FRESH, chunks);
    SplitAtFrame(frames, n, got, unread);
    GarbageThenFrames([], frames[..n]);
    assert [] + first == first;
    DrainAppend(FRESH.Append(first), partial);
    assert FRESH.Append(first).Append(partial) == FRESH.Append(got);
    if n < |frames| {
      PartialFrameWaits(frames[n], |partial|);
    } else {
      GarbageOnly([]);
    }
  }

  /** The bytes of the complete frames, and those of the next one that have come. */
  lemma SplitAtFrame(frames: seq<Frame>, n: nat, got: seq<byte>, unread: seq<byte>)
    requires n <= |frames| && got + unread == EncodeAll(frames)
    requires |EncodeAll(frames[..n])| <= |got|
    requires n < |frames| ==> |got| < |EncodeAll(frames[..n + 1])|
    ensures var first := EncodeAll(frames[..n]);
            && got == first + got[|first|..]
            && (if n < |frames| then |got| - |first| < |Encoding(frames[n])| && got[|first|..] == Encoding(frames[n])[..|got| - |first|]
                else got[|first|..] == [])
  {
    var first := EncodeAll(frames[..n]);
    EncodeAllPrefix(frames, n);
    FrontOfFront(got, unread, first, EncodeAll(frames[n..]));
    if n < |frames| {
      var rest := frames[n..];
      EncodeAllPrefix(frames[..n + 1], n);
      assert frames[..n + 1][..n] == frames[..n] && frames[..n + 1][n..] == [frames[n]];
      assert EncodeAll([frames[n]]) == Encoding(frames[n]) + EncodeAll([]);
      assert EncodeAll(rest) == Encoding(rest[0]) + EncodeAll(rest[1..]);
      StartOf(got[|first|..], unread, Encoding(frames[n]), EncodeAll(rest[1..]));
    } else {
      assert frames[n..] == [] && EncodeAll([]) == [];
    }
  }

  lemma StartOf(a: seq<byte>, b: seq<byte>, c: seq<byte>, d: seq<byte>)
    requires a + b == c + d && |a| <= |c|
    ensures a == c[..|a|]
  {
    assert (a + b)[..|a|] == a && (c + d)[..|a|] == c[..|a|];
  }

  lemma FrontOfFront(a: seq<byte>, b: seq<byte>, c: seq<byte>, d: seq<byte>)
    requires a + b == c + d && |c| <= |a|
    ensures a == c + a[|c|..] && a[|c|..] + b == d
  {
    assert (a + b)[..|c|] == a[..|c|] && (c + d)[..|c|] == c;
    assert (a + b)[|c|..] == a[|c|..] + b && (c + d)[|c|..] == d;
  }
}

/** The streaming parser against the one-shot decoder. */
module DecoderRefinement {
  import opened Bytes
  import opened Slices
  import opened FrameCodec
  import opened FrameParser
  import opened Chunking
  import opened Resynchronisation
  import opened Wrappers

  /** A complete header that the decoders accept stands at `k`. */
  predicate HeaderAt(s: seq<byte>, k: nat) {
    && k + FRAME_HEADER_SIZE <= |s|
    && MagicAt(s, k)
    && s[k + 4] == FRAME_VERSION
    && Word(s, k + 6) <= MAX_PAYLOAD_SIZE
  }

  /** The first place at or after `from` with an acceptable header. */
  function FirstHeader(s: seq<byte>, from: nat): (r: Option<nat>)
    ensures r.Some? ==> from <= r.value && HeaderAt(s, r.value) && forall k :: from <= k < r.value ==> !HeaderAt(s, k)
    ensures r.None? ==> forall k :: from <= k ==> !HeaderAt(s, k)
    decreases |s| - from
  {
    if from + FRAME_HEADER_SIZE > |s| then None
    else if HeaderAt(s, from) then Some(from)
    else FirstHeader(s, from + 1)
  }

  lemma FirstHeaderIs(s: seq<byte>, k: nat)
    requires HeaderAt(s, k) && forall j :: 0 <= j < k ==> !HeaderAt(s, j)
    ensures FirstHeader(s, 0) == Some(k)
  {
  }

  lemma HeaderInSuffix(s: seq<byte>, d: nat, k: nat)
    requires d <= k <= |s|
    ensures HeaderAt(s, k) <==> HeaderAt(s[d..], k - d)
  {
    MagicInSuffix(s, d, k);
    if k + FRAME_HEADER_SIZE <= |s| {
      assert s[d..][k - d + 4] == s[k + 4];
      assert s[d..][k - d + 6] == s[k + 6] && s[d..][k - d + 7] == s[k + 7];
      assert s[d..][k - d + 8] == s[k + 8] && s[d..][k - d + 9] == s[k + 9];
    }
  }

  lemma HeaderHere(s: seq<byte>)
    ensures HeaderAt(s, 0) <==> GoodHeader(s)
  {
  }

  ghost function Shifted(r: Option<nat>, d: nat): Option<nat> {
    match r
    case Some(k) => Some(d + k)
    case None => None
  }

  /** Where no header starts among the first `d` bytes, the search can begin behind them. */
  lemma FirstHeaderBehind(s: seq<byte>, d: nat)
    requires d <= |s| && forall k :: 0 <= k < d ==> !HeaderAt(s, k)
    ensures FirstHeader(s, 0) == Shifted(FirstHeader(s[d..], 0), d)
  {
    forall k: nat | d <= k <= |s|
      ensures HeaderAt(s, k) <==> HeaderAt(s[d..], k - d)
    {
      HeaderInSuffix(s, d, k);
    }
    if FirstHeader(s[d..], 0).Some? {
      FirstHeaderIs(s, d + FirstHeader(s[d..], 0).value);
    } else {
      forall k: nat | k <= |s|
        ensures !HeaderAt(s, k)
      {
        if d <= k {
          assert !HeaderAt(s[d..], k - d);
        }
      }
    }
  }

  /** The result `r` is the one-shot decoder's at `place`, with the bytes behind it kept; no frame without a place. */
  ghost predicate IsDecodeAt(s: seq<byte>, place: Option<nat>, r: Parsed)
    requires place.Some? ==> place.value <= |s|
  {
    if place.None? then r.1 == None else
      match TryDecode(s[place.value..])
      case NoFrame => r.1 == None
      case Decoded(f, n) => r == (FRESH.(buffer := s[place.value + n..]), Some(f))
  }

  lemma DroppedFront(s: seq<byte>, i: nat, place: Option<nat>, r: Parsed)
    requires i <= |s| && (place.Some? ==> i + place.value <= |s|) && IsDecodeAt(s[i..], place, r)
    ensures IsDecodeAt(s, Shifted(place, i), r)
  {
    if place.Some? {
      DropDrop(s, i, place.value);
      var d := TryDecode(s[i + place.value..]);
      if d.Decoded? {
        DropDrop(s, i, place.value + d.consumed);
      }
    }
  }

  /**
   A waiting parser returns a frame just when the one-shot decoder succeeds at the first good header,
   and then the same frame, leaving the bytes behind those the decoder consumed.
   */
  lemma {:induction false} StreamingIsDecodeAtFirstHeader(s: seq<byte>)
    ensures IsDecodeAt(s, FirstHeader(s, 0), TryParse(FRESH.(buffer := s)))
    decreases |s|
  {
    if FindMagic(s, 0).Some? {
      var i := FindMagic(s, 0).value;
      FirstHeaderBehind(s, i);
      MagicInSuffix(s, i, i);
      StreamingIsDecodeAtFirstHeader(s[i..][1..]);
      AtMagic(s[i..]);
      assert Iterate(FRESH.(buffer := s)) == (Parser(WaitingHeader, s[i..], EMPTY_FRAME, 0), Continue);
      DroppedFront(s, i, FirstHeader(s[i..], 0), TryParse(FRESH.(buffer := s)));
    } else {
      assert FirstHeader(s, 0).None?;
    }
  }

  /** The same for a parser that stands on a magic, when it holds behind its first byte. */
  lemma AtMagic(s: seq<byte>)
    requires MagicAt(s, 0)
    requires IsDecodeAt(s[1..], FirstHeader(s[1..], 0), TryParse(FRESH.(buffer := s[1..])))
    ensures IsDecodeAt(s, FirstHeader(s, 0), TryParse(Parser(WaitingHeader, s, EMPTY_FRAME, 0)))
  {
    hide IsDecodeAt, TryDecode;
    HeaderHere(s);
    if GoodHeader(s) {
      AtGoodHeader(s);
    } else if |s| >= FRAME_HEADER_SIZE {
      FirstHeaderBehind(s, 1);
      BadHeaderGivesUpOne(s);
      DroppedFront(s, 1, FirstHeader(s[1..], 0), TryParse(FRESH.(buffer := s[1..])));
    } else {
      NothingAtShort(s);
    }
  }

  lemma BadHeaderGivesUpOne(s: seq<byte>)
    requires MagicAt(s, 0) && |s| >= FRAME_HEADER_SIZE && !GoodHeader(s)
    ensures TryParse(Parser(WaitingHeader, s, EMPTY_FRAME, 0)) == TryParse(FRESH.(buffer := s[1..]))
  {
    assert Iterate(Parser(WaitingHeader, s, EMPTY_FRAME, 0)) == (FRESH.(buffer := s[1..]), Continue);
  }

  lemma NothingAtShort(s: seq<byte>)
    requires |s| < FRAME_HEADER_SIZE
    ensures IsDecodeAt(s, FirstHeader(s, 0), TryParse(Parser(WaitingHeader, s, EMPTY_FRAME, 0)))
  {
  }

  lemma AtGoodHeader(s: seq<byte>)
    requires GoodHeader(s)
    ensures IsDecodeAt(s, Some(0), TryParse(Parser(WaitingHeader, s, EMPTY_FRAME, 0)))
  {
    assert s[0..] == s;
    if HasCompleteFrame(s) {
      HeaderThenPayload(s);
    } else {
      var p := Parser(WaitingPayload, s, Frame(FRAME_MAGIC, FRAME_VERSION, s[5], Word(s, 6), []), Word(s, 6));
      assert Iterate(Parser(WaitingHeader, s, EMPTY_FRAME, 0)) == (p, Continue);
    }
  }

  /** Where the one-shot decoder succeeds at once, the streaming parser agrees and keeps the rest. */
  lemma DecodedIsStreamed(s: seq<byte>)
    requires TryDecode(s).Decoded?
    ensures TryParse(FRESH.(buffer := s)) == (FRESH.(buffer := s[TryDecode(s).consumed..]), Some(TryDecode(s).frame))
  {
    HeaderHere(s);
    StreamingIsDecodeAtFirstHeader(s);
    assert s[0..] == s;
  }
}

/** The stateful decoder of src/protocol/streaming_frame_codec.cpp. */
module StreamingCodec {
  import opened Bytes
  import opened FrameCodec
  import opened FrameParser
  import opened Wrappers

  class StreamingFrameCodec {
    var state: ParseState
    var buffer: seq<byte>
    var partial: Frame
    var payloadLength: nat

    constructor ()
      ensures Value() == FRESH
    {
      state, buffer, partial, payloadLength := WaitingMagic, [], EMPTY_FRAME, 0;
    }

    function Value(): Parser
      reads this
    {
      Parser(state, buffer, partial, payloadLength)
    }

    method AppendData(data: seq<byte>)
      modifies this
      ensures Value() == old(Value()).Append(data)
    {
      if |data| > 0 {
        buffer := buffer + data;
      }
      assert old(buffer) + [] == old(buffer);
    }

    method Reset()
      modifies this
      ensures Value() == FRESH
    {
      state := WaitingMagic;
      buffer := [];
      partial := EMPTY_FRAME;
      payloadLength := 0;
    }

    /** Parses the next complete frame out of the buffer, if there is one. */
    method TryParseFrame() returns (result: Option<Frame>)
      modifies this
      ensures (Value(), result) == TryParse(old(Value()))
    {
      while true
        invariant TryParse(Value()) == TryParse(old(Value()))
        decreases |buffer|, Value().Rank()
      {
        ghost var before := Value();
        match state
        case WaitingMagic =>
          var found := Sync();
          if !found {
            return None;
          }
          state := WaitingHeader;
        case WaitingHeader =>
          var parsed := TakeHeader();
          if !parsed {
            if state != WaitingMagic {
              return None;
            }
          } else {
            state := WaitingPayload;
          }
        case WaitingPayload =>
          var frame := TakePayload();
          if frame.None? {
            return None;
          }
          state := WaitingMagic;
          return frame;
      }
    }

    /** Looks for the magic from the front and drops what cannot be part of one. */
    method Sync() returns (found: bool)
      modifies this`buffer
      ensures (found, Value()) == SyncMagic(old(Value()))
    {
      if |buffer| < 4 {
        return false;
      }
      var i := 0;
      while i <= |buffer| - 4
        invariant 0 <= i <= |buffer| - 3 && buffer == old(buffer)
        invariant FindMagic(buffer, 0) == FindMagic(buffer, i)
      {
        if Word(buffer, i) == FRAME_MAGIC {
          if i > 0 {
            buffer := buffer[i..];
          }
          return true;
        }
        i := i + 1;
      }
      if |buffer| > 3 {
        buffer := buffer[|buffer| - 3..];
      }
      return false;
    }

    method TakeHeader() returns (parsed: bool)
      modifies this
      ensures (parsed, Value()) == ParseHeader(old(Value()))
    {
      if |buffer| < FRAME_HEADER_SIZE {
        return false;
      }
      var version := buffer[4];
      if version != FRAME_VERSION {
        buffer := buffer[1..];
        state := WaitingMagic;
        return false;
      }
      var msgType := buffer[5];
      var length := Word(buffer, 6);
      if length > MAX_PAYLOAD_SIZE {
        buffer := buffer[1..];
        state := WaitingMagic;
        return false;
      }
      partial := Frame(FRAME_MAGIC, version, msgType, length, partial.payload);
      payloadLength := length;
      return true;
    }

    method TakePayload() returns (result: Option<Frame>)
      modifies this
      ensures (result, Value()) == ParsePayload(old(Value()))
    {
      var total := FRAME_HEADER_SIZE + payloadLength;
      if |buffer| < total {
        return None;
      }
      result := Some(partial.(payload := buffer[FRAME_HEADER_SIZE..total]));
      buffer := buffer[total..];
      partial := EMPTY_FRAME;
      payloadLength := 0;
    }
  }
}
