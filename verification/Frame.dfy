/** src/protocol.cpp: the framed wire protocol.
    magic(4) | version(2) | kind(2) | payload length(4) | crc(4) | payload, little-endian. */
module Frame {
  import opened Bytes
  import opened Status
  import opened Words
  import opened Crc32

  const MAGIC: nat := 0x5346_4231
  const VERSION: nat := 1
  const MAX_PAYLOAD: nat := 64 * 1024 * 1024
  const HEADER: nat := 16

  datatype Kind =
    | HELLO | REGISTER_BACKEND | CREATE_OBJECT | PUBLISH | READ_OBJECT | VERIFY | COMMIT
    | REPLICATE | RECOVER | PING | PONG | ERROR | GOODBYE

  function KindCode(k: Kind): (code: nat)
    ensures 1 <= code <= 13
  {
    match k
    case HELLO => 1 case REGISTER_BACKEND => 2 case CREATE_OBJECT => 3 case PUBLISH => 4
    case READ_OBJECT => 5 case VERIFY => 6 case COMMIT => 7 case REPLICATE => 8
    case RECOVER => 9 case PING => 10 case PONG => 11 case ERROR => 12 case GOODBYE => 13
  }

  function KindOf(code: nat): (k: Option<Kind>)
    ensures k.Some? <==> 1 <= code <= 13
    ensures k.Some? ==> KindCode(k.value) == code
  {
    match code
    case 1 => Some(HELLO) case 2 => Some(REGISTER_BACKEND) case 3 => Some(CREATE_OBJECT)
    case 4 => Some(PUBLISH) case 5 => Some(READ_OBJECT) case 6 => Some(VERIFY)
    case 7 => Some(COMMIT) case 8 => Some(REPLICATE) case 9 => Some(RECOVER)
    case 10 => Some(PING) case 11 => Some(PONG) case 12 => Some(ERROR) case 13 => Some(GOODBYE)
    case _ => None
  }

  datatype Frame = Frame(kind: Kind, payload: bytes, crc: Word)

  // ----- Frames as values -----

  /** The twelve header bytes the checksum covers. */
  function Prefix(kind: nat, length: nat): (s: bytes)
    ensures |s| == 12
  {
    Le(MAGIC, 4) + Le(VERSION, 2) + Le(kind, 2) + Le(length, 4)
  }

  /** The checksum belongs to the covered header bytes followed by the payload. */
  function FrameCrc(prefix: bytes, payload: bytes): Word {
    Crc(prefix + payload)
  }

  /** The bytes of a frame; nothing for a payload over the limit. */
  function Encoded(kind: Kind, payload: bytes): bytes {
    if |payload| > MAX_PAYLOAD then []
    else
      var prefix := Prefix(KindCode(kind), |payload|);
      prefix + WordBytes(FrameCrc(prefix, payload)) + payload
  }

  datatype Fields = Fields(magic: nat, version: nat, kind: nat, length: nat, crc: bytes)

  function TakeHeader(data: bytes): Parsed<Fields> {
    var (magic, r1) :- TakeLe(data, 4);
    var (version, r2) :- TakeLe(r1, 2);
    var (kind, r3) :- TakeLe(r2, 2);
    var (length, r4) :- TakeLe(r3, 4);
    var (crc, r5) :- TakeBytes(r4, 4);
    Good(Fields(magic, version, kind, length, crc), r5)
  }

  /** What decode_frame must answer: the first frame, or the first check that fails. */
  function Decoded(data: bytes): (r: Result<(Frame, nat)>) {
    match TakeHeader(data)
    case Bad => Err(Truncated)
    case Good(h, rest) =>
      if h.magic != MAGIC then Err(ProtocolError)
      else if h.version != VERSION then Err(ProtocolError)
      else if h.length > MAX_PAYLOAD then Err(Overflow)
      else if |rest| < h.length then Err(Truncated)
      else if WordBytes(FrameCrc(data[..12], rest[..h.length])) != h.crc then Err(IntegrityMismatch)
      else match KindOf(h.kind)
        case None => Err(ProtocolError)
        case Some(kind) => Ok((Frame(kind, rest[..h.length], WordOf(h.crc)), HEADER + h.length))
  }

  /** The kinds by their number on the wire, from one. */
  const KINDS: seq<Kind> := [
    HELLO, REGISTER_BACKEND, CREATE_OBJECT, PUBLISH, READ_OBJECT, VERIFY, COMMIT, REPLICATE, RECOVER, PING, PONG, ERROR, GOODBYE]

  lemma Numbered(n: nat)
    requires n < |KINDS|
    ensures KindCode(KINDS[n]) == n + 1
  {}

  /** A frame byte for byte: the letters 1BFS, version and kind in two bytes each, the payload's length, the checksum of
      these twelve bytes and the payload, the payload. Nothing for more than 64 MiB. */
  lemma FrameBytes(n: nat, payload: bytes)
    requires n < |KINDS|
    ensures |payload| > 0x400_0000 ==> Encoded(KINDS[n], payload) == []
    ensures |payload| <= 0x400_0000 ==>
      var head := [0x31, 0x42, 0x46, 0x53] + [1, 0] + [ToByte(n + 1), 0] + Le(|payload|, 4);
      Encoded(KINDS[n], payload) == head + WordBytes(Crc(head + payload)) + payload
  {
    hide Le, ToByte, Crc, WordBytes;
    Numbered(n);
    MagicBytes();
    ShortField(1);
    ShortField(n + 1);
  }

  lemma MagicBytes()
    ensures Le(MAGIC, 4) == [0x31, 0x42, 0x46, 0x53]
  {
    hide Le;
    LowByte(0x5346_4231, 0x31);
    LowByte(0x53_4642, 0x42);
    LowByte(0x5346, 0x46);
    LowByte(0x53, 0x53);
  }

  lemma ShortField(n: nat)
    requires n < 256
    ensures Le(n, 2) == [ToByte(n), 0]
  {
    hide Le, ToByte;
    LowByte(n, ToByte(n));
    LowByte(0, 0);
  }

  // ----- The codec as written -----

  /** encode_frame: the checksum is patched over a placeholder. */
  method EncodeFrame(kind: Kind, payload: bytes) returns (out: bytes)
    ensures out == Encoded(kind, payload)
  {
    if |payload| > MAX_PAYLOAD {
      return [];
    }
    var header := EncodeHeader(kind, |payload|);
    ghost var prefix := Prefix(KindCode(kind), |payload|);
    hide Le, Crc, WordBytes, Prefix;
    var crc := HeaderCrc(header, payload);
    var patch := WordBytes(crc);
    Patched(header, prefix, patch);
    header := header[12 := patch[0]][13 := patch[1]][14 := patch[2]][15 := patch[3]];
    out := header + payload;
  }

  lemma Patched(header: bytes, prefix: bytes, patch: bytes)
    requires |header| == HEADER && |prefix| == 12 && header[..12] == prefix && |patch| == 4
    ensures header[12 := patch[0]][13 := patch[1]][14 := patch[2]][15 := patch[3]] == prefix + patch
  {}

  method EncodeHeader(kind: Kind, length: nat) returns (header: bytes)
    ensures |header| == HEADER && header[..12] == Prefix(KindCode(kind), length)
  {
    hide Le;
    var w := new ByteWriter();
    w.PutLe(MAGIC, 4);
    w.PutLe(VERSION, 2);
    w.PutLe(KindCode(kind), 2);
    w.PutLe(length, 4);
    ghost var prefix := w.buf;
    w.PutLe(0, 4);
    header := w.buf;
    assert header[..12] == prefix;
  }

  /** frame_crc: the header and payload checksums, combined without joining the bytes. */
  method HeaderCrc(header: bytes, payload: bytes) returns (crc: Word)
    requires |header| >= 12
    ensures crc == FrameCrc(header[..12], payload)
  {
    var c1 := Checksum(header[..12]);
    var c2 := Checksum(payload);
    crc := CombineIsConcatenation(header[..12], payload, c1, c2);
  }

  method ReadHeader(data: bytes) returns (ok: bool, h: Fields)
    ensures ok == TakeHeader(data).Good?
    ensures ok ==> TakeHeader(data) == Good(h, data[HEADER..]) && |data| >= HEADER && h.crc == data[12..16]
  {
    hide TakeLe, TakeBytes, Le;
    h := Fields(0, 0, 0, 0, []);
    var r := new ByteReader(data);
    var magic, version, kind, length, crc;
    ok, magic := r.ReadLe(4);
    if !ok { return; }
    ok, version := r.ReadLe(2);
    if !ok { return; }
    ok, kind := r.ReadLe(2);
    if !ok { return; }
    ok, length := r.ReadLe(4);
    if !ok { return; }
    ok, crc := r.ReadBytes(4);
    if !ok { return; }
    h := Fields(magic, version, kind, length, crc);
    assert TakeHeader(data) == Good(h, r.Rest());
    HeaderOfTaken(data);
  }

  /** decode_frame: on success `consumed` bytes of `data` were one frame. */
  method DecodeFrame(data: bytes) returns (res: Result<Frame>, consumed: nat)
    ensures res == match Decoded(data) case Ok(v) => Ok(v.0) case Err(c) => Err(c)
    ensures consumed == match Decoded(data) case Ok(v) => v.1 case Err(_) => 0
  {
    hide TakeHeader, FrameCrc, WordBytes, WordOf;
    consumed := 0;
    if |data| < HEADER {
      ShortHeader(data);
      return Err(Truncated), 0;
    }
    var ok, h := ReadHeader(data);
    if !ok { return Err(Truncated), 0; }
    if h.magic != MAGIC { return Err(ProtocolError), 0; }
    if h.version != VERSION { return Err(ProtocolError), 0; }
    if h.length > MAX_PAYLOAD { return Err(Overflow), 0; }
    if |data| < HEADER + h.length { return Err(Truncated), 0; }
    var payload := data[HEADER..HEADER + h.length];
    assert payload == data[HEADER..][..h.length];
    var crc := HeaderCrc(data[..HEADER], payload);
    assert data[..HEADER][..12] == data[..12];
    CrcFieldsAgree(crc, h.crc);
    if crc != WordOf(h.crc) { return Err(IntegrityMismatch), 0; }
    match KindOf(h.kind) {
      case None => return Err(ProtocolError), 0;
      case Some(kind) => return Ok(Frame(kind, payload, WordOf(h.crc))), HEADER + h.length;
    }
  }

  lemma ShortHeader(data: bytes)
    requires |data| < HEADER
    ensures TakeHeader(data).Bad?
  {
    hide UnLe;
  }

  lemma CrcFieldsAgree(crc: Word, field: bytes)
    requires |field| == 4
    ensures crc == WordOf(field) <==> WordBytes(crc) == field
  {
    hide WordOf, WordBytes;
    WordRoundTrip(crc);
    WordBytesOfWord(field);
  }

  // ----- Header parsing is exact -----

  lemma TakeHeaderOf(magic: nat, version: nat, kind: nat, length: nat, crc: bytes, rest: bytes)
    requires magic < TWO_32 && version < TWO_16 && kind < TWO_16 && length < TWO_32 && |crc| == 4
    ensures TakeHeader(Le(magic, 4) + Le(version, 2) + Le(kind, 2) + Le(length, 4) + crc + rest)
         == Good(Fields(magic, version, kind, length, crc), rest)
  {
    hide Le, TakeLe, Radix;
    RadixValues();
    var r4 := crc + rest;
    var r3 := Le(length, 4) + r4;
    var r2 := Le(kind, 2) + r3;
    var r1 := Le(version, 2) + r2;
    var data := Le(magic, 4) + r1;
    assert data == Le(magic, 4) + Le(version, 2) + Le(kind, 2) + Le(length, 4) + crc + rest;
    TakeLeOfLe(magic, 4, r1);
    TakeLeOfLe(version, 2, r2);
    TakeLeOfLe(kind, 2, r3);
    TakeLeOfLe(length, 4, r4);
    assert r4[..4] == crc && r4[4..] == rest;
  }

  lemma HeaderOfTaken(data: bytes)
    requires TakeHeader(data).Good?
    ensures |data| >= HEADER && TakeHeader(data).rest == data[HEADER..]
    ensures var h := TakeHeader(data).value;
            data[..12] == Le(h.magic, 4) + Le(h.version, 2) + Le(h.kind, 2) + Le(h.length, 4) && h.crc == data[12..16]
  {
    hide Le, TakeLe, Radix;
    var p1 := TakeLe(data, 4);
    LeOfTakeLe(data, 4);
    var p2 := TakeLe(p1.rest, 2);
    LeOfTakeLe(p1.rest, 2);
    var p3 := TakeLe(p2.rest, 2);
    LeOfTakeLe(p2.rest, 2);
    var p4 := TakeLe(p3.rest, 4);
    LeOfTakeLe(p3.rest, 4);
    var h := TakeHeader(data).value;
    var head := Le(h.magic, 4) + Le(h.version, 2) + Le(h.kind, 2) + Le(h.length, 4);
    assert p4.rest == p4.rest[..4] + p4.rest[4..];
    assert data == head + p4.rest;
    assert data[..12] == head && data[12..] == p4.rest;
  }

  /** The answer to a header, by the first of its fields that is wrong. */
  lemma HeaderAnswers(magic: nat, version: nat, kind: nat, length: nat, crc: bytes, rest: bytes)
    requires magic < TWO_32 && version < TWO_16 && kind < TWO_16 && length < TWO_32 && |crc| == 4
    ensures var head := Le(magic, 4) + Le(version, 2) + Le(kind, 2) + Le(length, 4);
      var answer := Decoded(head + crc + rest);
      && (magic != 0x5346_4231 || version != 1 ==> answer == Err(ProtocolError))
      && (magic == 0x5346_4231 && version == 1 ==>
            && (length > 0x400_0000 ==> answer == Err(Overflow))
            && (|rest| < length <= 0x400_0000 ==> answer == Err(Truncated))
            && (length <= 0x400_0000 && length <= |rest| ==>
                  var intact := WordBytes(Crc(head + rest[..length])) == crc;
                  (!intact ==> answer == Err(IntegrityMismatch)) && (intact && !(1 <= kind <= 13) ==> answer == Err(ProtocolError))))
  {
    hide Le, TakeHeader, Crc, WordBytes, WordOf;
    TakeHeaderOf(magic, version, kind, length, crc, rest);
    var head := Le(magic, 4) + Le(version, 2) + Le(kind, 2) + Le(length, 4);
    assert (head + crc + rest)[..12] == head;
  }

  /** A frame that has not arrived in full is Truncated, at whatever byte it stops: a reader may wait for more. */
  lemma PrefixTruncated(kind: Kind, payload: bytes, n: nat)
    requires |payload| <= MAX_PAYLOAD && n < |Encoded(kind, payload)|
    ensures Decoded(Encoded(kind, payload)[..n]) == Err(Truncated)
  {
    hide Le, Crc, WordBytes, WordOf, TakeHeader;
    if n < HEADER {
      ShortHeader(Encoded(kind, payload)[..n]);
    } else {
      var prefix := Prefix(KindCode(kind), |payload|);
      var crc := WordBytes(FrameCrc(prefix, payload));
      assert Encoded(kind, payload)[..n] == prefix + crc + payload[..n - HEADER];
      HeaderAnswers(MAGIC, VERSION, KindCode(kind), |payload|, crc, payload[..n - HEADER]);
    }
  }

  // ----- Frames are a self-delimiting bijection -----

  /** Decoding undoes encoding, whatever bytes follow. */
  lemma RoundTrip(kind: Kind, payload: bytes, rest: bytes)
    requires |payload| <= MAX_PAYLOAD
    ensures |Encoded(kind, payload)| == HEADER + |payload|
    ensures Decoded(Encoded(kind, payload) + rest)
         == Ok((Frame(kind, payload, FrameCrc(Prefix(KindCode(kind), |payload|), payload)), HEADER + |payload|))
  {
    hide Le, WordBytes, WordOf, FrameCrc, TakeHeader;
    var prefix := Prefix(KindCode(kind), |payload|);
    var crc := FrameCrc(prefix, payload);
    var data := Encoded(kind, payload) + rest;
    var tail := payload + rest;
    TakeHeaderOf(MAGIC, VERSION, KindCode(kind), |payload|, WordBytes(crc), tail);
    assert data == prefix + WordBytes(crc) + tail;
    assert data[..12] == prefix && tail[..|payload|] == payload;
    WordRoundTrip(crc);
  }

  /** Every prefix the decoder accepts is the encoding of what it returns. */
  lemma Canonical(data: bytes)
    requires Decoded(data).Ok?
    ensures var (f, n) := Decoded(data).value;
            n <= |data| && data[..n] == Encoded(f.kind, f.payload) && |f.payload| <= MAX_PAYLOAD
            && f.crc == FrameCrc(data[..12], f.payload)
  {
    hide Le, WordBytes, WordOf, FrameCrc, TakeHeader;
    HeaderOfTaken(data);
    var h := TakeHeader(data).value;
    var payload := data[HEADER..][..h.length];
    CrcFieldsAgree(FrameCrc(data[..12], payload), h.crc);
    assert data[..HEADER + h.length] == data[..12] + data[12..16] + payload;
  }

  // ----- Streams -----

  function EncodedAll(frames: seq<(Kind, bytes)>): bytes {
    if frames == [] then [] else Encoded(frames[0].0, frames[0].1) + EncodedAll(frames[1..])
  }

  /** Repeated decoding, as far as it goes: the frames read and the bytes left over. */
  function DecodedAll(data: bytes): (seq<(Kind, bytes)>, bytes)
    decreases |data|
  {
    match Decoded(data)
    case Err(_) => ([], data)
    case Ok(v) =>
      Canonical(data);
      var (more, rest) := DecodedAll(data[v.1..]);
      ([(v.0.kind, v.0.payload)] + more, rest)
  }

  /** Concatenated frames come apart again, in order and with nothing left. */
  lemma {:induction false} StreamRoundTrip(frames: seq<(Kind, bytes)>)
    requires forall f <- frames :: |f.1| <= MAX_PAYLOAD
    ensures DecodedAll(EncodedAll(frames)) == (frames, [])
  {
    hide Encoded, Decoded, FrameCrc;
    if frames == [] {
      EmptyIsTruncated();
    } else {
      var (kind, payload) := frames[0];
      var rest := EncodedAll(frames[1..]);
      RoundTrip(kind, payload, rest);
      StreamRoundTrip(frames[1..]);
      assert EncodedAll(frames)[HEADER + |payload|..] == rest;
      assert [frames[0]] + frames[1..] == frames;
    }
  }

  lemma EmptyIsTruncated()
    ensures Decoded([]) == Err(Truncated)
  {
    ShortHeader([]);
  }

  // ----- Damage -----

  /** A payload with any one to four consecutive bytes replaced is rejected as corrupt. */
  lemma BurstDetected(kind: Kind, pre: bytes, v: bytes, w: bytes, post: bytes, rest: bytes)
    requires |pre + v + post| <= MAX_PAYLOAD && |v| == |w| <= 4 && v != w
    ensures var sent := Encoded(kind, pre + v + post) + rest;
            var received := sent[..HEADER + |pre|] + w + sent[HEADER + |pre| + |v|..];
            Decoded(received) == Err(IntegrityMismatch)
  {
    hide Le, WordBytes, WordOf, Crc, TakeHeader;
    var good, bad := pre + v + post, pre + w + post;
    var prefix := Prefix(KindCode(kind), |good|);
    var crc := WordBytes(FrameCrc(prefix, good));
    var sent := Encoded(kind, good) + rest;
    var received := sent[..HEADER + |pre|] + w + sent[HEADER + |pre| + |v|..];
    assert sent == prefix + crc + pre + v + post + rest;
    assert received == prefix + crc + (bad + rest);
    TakeHeaderOf(MAGIC, VERSION, KindCode(kind), |good|, crc, bad + rest);
    assert received[..12] == prefix && (bad + rest)[..|good|] == bad;
    BurstChangesCrc(prefix + pre, v, w, post);
    assert prefix + good == prefix + pre + v + post && prefix + bad == prefix + pre + w + post;
    WordRoundTrip(FrameCrc(prefix, good));
    WordRoundTrip(FrameCrc(prefix, bad));
  }
}
