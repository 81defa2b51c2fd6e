/** The wire format of a frame: one-shot encoder and decoder. */
module FrameCodec {
  import opened Bytes

  type uint32 = n: int | 0 <= n < 0x1_0000_0000

  const FRAME_MAGIC: uint32 := 0xDEAD_BEEF
  const FRAME_VERSION: byte := 1
  const FRAME_HEADER_SIZE: nat := 10

  datatype Frame = Frame(magic: uint32, version: byte, msgType: byte, length: uint32, payload: seq<byte>)

  datatype Decoding = NoFrame | Decoded(frame: Frame, consumed: nat)

  /** The default-constructed frame. */
  const EMPTY_FRAME := Frame(FRAME_MAGIC, FRAME_VERSION, 0, 0, [])

  /** A frame that the decoders accept: default magic and version, payload within the limit. */
  predicate Sendable(f: Frame) {
    f.magic == FRAME_MAGIC && f.version == FRAME_VERSION && |f.payload| <= MAX_PAYLOAD_SIZE
  }

  /** What a decoder makes of `f`: its type and payload, with the length filled in. */
  function Canonical(f: Frame): Frame
    requires |f.payload| < 0x1_0000_0000
  {
    Frame(FRAME_MAGIC, FRAME_VERSION, f.msgType, |f.payload|, f.payload)
  }

  function Bytes32(n: uint32): (s: seq<byte>)
    ensures |s| == 4
  {
    [n / 0x100_0000 % 256, n / 0x1_0000 % 256, n / 0x100 % 256, n % 256]
  }

  /** The big-endian word at `i`. */
  function Word(s: seq<byte>, i: nat): uint32
    requires i + 4 <= |s|
  {
    s[i] as int * 0x100_0000 + s[i + 1] as int * 0x1_0000 + s[i + 2] as int * 0x100 + s[i + 3] as int
  }

  lemma WordOfBytes32(pre: seq<byte>, n: uint32, post: seq<byte>)
    ensures Word(pre + Bytes32(n) + post, |pre|) == n
  {
    var s := pre + Bytes32(n) + post;
    var b := Bytes32(n);
    assert s[|pre|] == b[0] && s[|pre| + 1] == b[1] && s[|pre| + 2] == b[2] && s[|pre| + 3] == b[3];
    DigitsOfWord(n);
  }

  lemma DigitsOfWord(n: uint32)
    ensures n == (n / 0x100_0000 % 256) * 0x100_0000 + (n / 0x1_0000 % 256) * 0x1_0000 + (n / 0x100 % 256) * 0x100 + n % 256
  {
    var q1, r0 := n / 0x100, n % 0x100;
    var q2, r1 := q1 / 0x100, q1 % 0x100;
    var q3, r2 := q2 / 0x100, q2 % 0x100;
    ModUnique(n, 0x1_0000, q2, r1 * 0x100 + r0);
    ModUnique(n, 0x100_0000, q3, r2 * 0x1_0000 + r1 * 0x100 + r0);
  }

  /** The ten header bytes; a payload size that does not fit 32 bits is cut as the cast does. */
  function Header(f: Frame): (s: seq<byte>)
    ensures |s| == FRAME_HEADER_SIZE
  {
    Bytes32(f.magic) + [f.version, f.msgType] + Bytes32(|f.payload| % 0x1_0000_0000)
  }

  function Encoding(f: Frame): seq<byte> {
    Header(f) + f.payload
  }

  method Encode(f: Frame) returns (result: seq<byte>)
    ensures result == Encoding(f)
  {
    result := [];
    result := result + [f.magic / 0x100_0000 % 256];
    result := result + [f.magic / 0x1_0000 % 256];
    result := result + [f.magic / 0x100 % 256];
    result := result + [f.magic % 256];
    assert result == Bytes32(f.magic);
    result := result + [f.version];
    result := result + [f.msgType];
    var length := |f.payload| % 0x1_0000_0000;
    result := result + [length / 0x100_0000 % 256];
    result := result + [length / 0x1_0000 % 256];
    result := result + [length / 0x100 % 256];
    result := result + [length % 256];
    assert result == Header(f);
    result := result + f.payload;
  }

  /** Writes the header in place, or nothing when there is no room for it; bytes behind it are untouched. */
  method EncodeHeaderToBuffer(f: Frame, buffer: array<byte>) returns (written: nat)
    modifies buffer
    ensures buffer.Length < FRAME_HEADER_SIZE ==> written == 0 && buffer[..] == old(buffer[..])
    ensures buffer.Length >= FRAME_HEADER_SIZE ==>
      written == FRAME_HEADER_SIZE && buffer[..] == Header(f) + old(buffer[FRAME_HEADER_SIZE..])
  {
    if buffer.Length < FRAME_HEADER_SIZE {
      return 0;
    }
    PutWord(buffer, 0, f.magic);
    buffer[4], buffer[5] := f.version, f.msgType;
    PutWord(buffer, 6, |f.payload| % 0x1_0000_0000);
    assert buffer[..FRAME_HEADER_SIZE] == Header(f);
    return FRAME_HEADER_SIZE;
  }

  /** The four assignments that store a word most significant byte first. */
  method PutWord(buffer: array<byte>, at: nat, n: uint32)
    requires at + 4 <= buffer.Length
    modifies buffer
    ensures buffer[at..at + 4] == Bytes32(n)
    ensures forall i :: 0 <= i < buffer.Length && !(at <= i < at + 4) ==> buffer[i] == old(buffer[i])
  {
    buffer[at] := n / 0x100_0000 % 256;
    buffer[at + 1] := n / 0x1_0000 % 256;
    buffer[at + 2] := n / 0x100 % 256;
    buffer[at + 3] := n % 256;
  }

  function TryDecode(buffer: seq<byte>): (d: Decoding)
    ensures d.Decoded? ==> FRAME_HEADER_SIZE <= d.consumed <= |buffer|
  {
    if |buffer| < FRAME_HEADER_SIZE then NoFrame
    else if Word(buffer, 0) != FRAME_MAGIC then NoFrame
    else if buffer[4] != FRAME_VERSION then NoFrame
    else
      var length := Word(buffer, 6);
      if length > MAX_PAYLOAD_SIZE then NoFrame
      else if |buffer| < FRAME_HEADER_SIZE + length then NoFrame
      else
        Decoded(
          Frame(FRAME_MAGIC, buffer[4], buffer[5], length, buffer[FRAME_HEADER_SIZE..FRAME_HEADER_SIZE + length]),
          FRAME_HEADER_SIZE + length)
  }

  predicate HasCompleteFrame(buffer: seq<byte>) {
    |buffer| >= FRAME_HEADER_SIZE && |buffer| >= FRAME_HEADER_SIZE + Word(buffer, 6)
  }

  /** A complete header that the decoders go on with. */
  predicate GoodHeader(buffer: seq<byte>) {
    && |buffer| >= FRAME_HEADER_SIZE
    && Word(buffer, 0) == FRAME_MAGIC
    && buffer[4] == FRAME_VERSION
    && Word(buffer, 6) <= MAX_PAYLOAD_SIZE
  }

  /** What the header fields of an encoding read back as. */
  lemma EncodingFields(f: Frame, rest: seq<byte>)
    ensures var s := Encoding(f) + rest;
            && |s| == FRAME_HEADER_SIZE + |f.payload| + |rest|
            && Word(s, 0) == f.magic
            && s[4] == f.version
            && s[5] == f.msgType
            && Word(s, 6) == |f.payload| % 0x1_0000_0000
            && s[FRAME_HEADER_SIZE..FRAME_HEADER_SIZE + |f.payload|] == f.payload
            && s[FRAME_HEADER_SIZE + |f.payload|..] == rest
  {
    var s := Encoding(f) + rest;
    var length := |f.payload| % 0x1_0000_0000;
    var front := Bytes32(f.magic) + [f.version, f.msgType];
    WordOfBytes32([], f.magic, [f.version, f.msgType] + Bytes32(length) + f.payload + rest);
    assert s == [] + Bytes32(f.magic) + ([f.version, f.msgType] + Bytes32(length) + f.payload + rest);
    WordOfBytes32(front, length, f.payload + rest);
    assert s == front + Bytes32(length) + (f.payload + rest);
  }

  /** A sendable frame decodes to its type and payload, whatever follows it. */
  lemma DecodeInvertsEncode(f: Frame, rest: seq<byte>)
    requires Sendable(f)
    ensures TryDecode(Encoding(f) + rest) == Decoded(Canonical(f), |Encoding(f)|)
  {
    EncodingFields(f, rest);
  }

  /**
   An encoding decodes to the type and payload of its frame exactly when the frame is sendable.
   A payload of 4 GiB or more is announced with its length cut to 32 bits, so that something else may be decoded.
  */
  lemma DecodesOnlySendable(f: Frame)
    ensures var d := TryDecode(Encoding(f));
            && (d.Decoded? && d.frame.msgType == f.msgType && d.frame.payload == f.payload <==> Sendable(f))
            && (Sendable(f) ==> d.consumed == |Encoding(f)|)
    ensures TryDecode(Encoding(f)).Decoded? <==>
      f.magic == FRAME_MAGIC && f.version == FRAME_VERSION && |f.payload| % 0x1_0000_0000 <= MAX_PAYLOAD_SIZE
  {
    EncodingFields(f, []);
    assert Encoding(f) + [] == Encoding(f);
    assert |f.payload| % 0x1_0000_0000 <= |f.payload|;
  }

  /** The decoder succeeds exactly on a good header with all of its payload behind it. */
  lemma DecodesExactlyComplete(buffer: seq<byte>)
    ensures TryDecode(buffer).Decoded? <==> GoodHeader(buffer) && HasCompleteFrame(buffer)
  {
  }

  /** Decoding depends only on the bytes consumed, and they are the encoding of the frame. */
  lemma DecodeIsLocal(buffer: seq<byte>)
    requires TryDecode(buffer).Decoded?
    ensures var d := TryDecode(buffer);
            && Sendable(d.frame) && d.frame == Canonical(d.frame)
            && buffer[..d.consumed] == Encoding(d.frame)
  {
    hide Word, Bytes32;
    var d := TryDecode(buffer);
    HeaderBytes(buffer);
    assert Header(d.frame) == buffer[..FRAME_HEADER_SIZE];
    SliceSplits(buffer, FRAME_HEADER_SIZE, d.consumed);
  }

  lemma SliceSplits(s: seq<byte>, a: nat, b: nat)
    requires a <= b <= |s|
    ensures s[..b] == s[..a] + s[a..b]
  {
  }

  lemma HeaderBytes(s: seq<byte>)
    requires |s| >= FRAME_HEADER_SIZE
    ensures s[..FRAME_HEADER_SIZE] == Bytes32(Word(s, 0)) + [s[4], s[5]] + Bytes32(Word(s, 6))
  {
    BytesOfWord(s, 0);
    BytesOfWord(s, 6);
    assert s[..FRAME_HEADER_SIZE] == s[0..4] + [s[4], s[5]] + s[6..10];
  }

  lemma BytesOfWord(s: seq<byte>, i: nat)
    requires i + 4 <= |s|
    ensures Bytes32(Word(s, i)) == s[i..i + 4]
  {
    var ab := s[i] as int * 256 + s[i + 1];
    var abc := ab * 256 + s[i + 2];
    var w := Word(s, i);
    ModUnique(w, 256, abc, s[i + 3]);
    ModUnique(abc, 256, ab, s[i + 2]);
    ModUnique(ab, 256, s[i], s[i + 1]);
    assert w / 0x1_0000 == w / 256 / 256 && w / 0x100_0000 == w / 256 / 256 / 256;
  }
}
