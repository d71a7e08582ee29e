/** The RCON packet codec of classes/EnhancedArkRcon.php: a packet is
      [size][id][type][body][0x00 0x00]
    with size, id and type unsigned 32-bit little-endian words (PHP's
    pack/unpack 'V'), and size counting every byte after the size field, as in
    the "Basic Packet Structure" of Valve's Source RCON Protocol. */
module RconCodec {
  import opened Wrappers

  type byte = b: int | 0 <= b < 256
  type Bytes = seq<byte>

  const WordLimit: int := 0x1_0000_0000
  type Word = w: int | 0 <= w < 0x1_0000_0000

  /** The packet type codes of RconPacketType. EXECCOMMAND and AUTH_RESPONSE
      share the value 2; nothing here tells them apart. */
  const AUTH: Word := 3
  const EXECCOMMAND: Word := 2
  const RESPONSE_VALUE: Word := 0
  const AUTH_RESPONSE: Word := 2

  /** What pack('V', n) keeps of a PHP int: its low 32 bits. */
  function ToWord(n: int): Word {
    n % WordLimit
  }

  /** A word is its own 32-bit reduction. */
  lemma ToWordOfWord(w: int)
    requires 0 <= w < WordLimit
    ensures ToWord(w) == w
  {
  }

  /** A word as four little-endian bytes. */
  function Le32(w: Word): (r: Bytes)
    ensures |r| == 4
  {
    [w % 256, (w / 256) % 256, (w / 65536) % 256, w / 16777216]
  }

  /** unpack('V', b)[1] on four bytes. */
  function UnLe32(b: Bytes): Word
    requires |b| == 4
  {
    b[0] as int + 256 * (b[1] as int) + 65536 * (b[2] as int) + 16777216 * (b[3] as int)
  }

  lemma {:induction false} UnLe32Le32(w: Word)
    ensures UnLe32(Le32(w)) == w
  {
    var q1 := w / 256;
    var q2 := q1 / 256;
    var q3 := q2 / 256;
    assert w == 256 * q1 + w % 256;
    assert q1 == 256 * q2 + q1 % 256;
    assert q2 == 256 * q3 + q2 % 256;
    assert w / 65536 == q2;
    assert w / 16777216 == q3;
  }

  lemma {:induction false} Le32UnLe32(b: Bytes)
    requires |b| == 4
    ensures Le32(UnLe32(b)) == b
  {
    var w := UnLe32(b);
    var q1: int := b[1] as int + 256 * (b[2] as int) + 65536 * (b[3] as int);
    var q2: int := b[2] as int + 256 * (b[3] as int);
    assert w == 256 * q1 + b[0];
    assert w % 256 == b[0] && w / 256 == q1;
    assert q1 == 256 * q2 + b[1];
    assert w / 65536 == q2;
    assert (w / 256) % 256 == b[1];
    assert q2 == 256 * (b[3] as int) + b[2];
    assert w / 16777216 == b[3];
    assert (w / 65536) % 256 == b[2];
  }

  /** createPacket: the bytes written for one request. */
  function EncodePacket(id: int, ptype: Word, body: Bytes): Bytes {
    var payload := Le32(ToWord(id)) + Le32(ptype) + body + [0, 0];
    Le32(ToWord(|payload|)) + payload
  }

  /** A decoded response. A field is None where unpack('V') had fewer than
      four bytes to read and PHP left it null. */
  datatype Response = Response(id: Option<Word>, ptype: Option<Word>, body: Bytes)

  /** The fields readPacket takes out of the `size` bytes after the size
      field: id from bytes 0-3, type from bytes 4-7, and
      substr($payload, 8, -2) as the body (empty when fewer than ten bytes). */
  function DecodePayload(p: Bytes): Response {
    Response(
      if |p| >= 4 then Some(UnLe32(p[..4])) else None,
      if |p| >= 8 then Some(UnLe32(p[4..8])) else None,
      if |p| >= 10 then p[8..|p| - 2] else [])
  }

  /** readPacket over the bytes the peer has delivered and not yet been read:
      one read of four bytes for the size, then one read of `size` bytes.
      A read yields what is available, up to the amount asked for; when it
      yields fewer the packet is lost (None, readPacket's `false`) and so are
      the bytes it consumed. Returns the response and the unread bytes. */
  function ReadFrame(inbound: Bytes): (Option<Response>, Bytes)
  {
    if |inbound| < 4 then (None, [])
    else
      var size := UnLe32(inbound[..4]);
      var rest := inbound[4..];
      if size == 0 then (None, rest)
      else if |rest| < size then (None, [])
      else (Some(DecodePayload(rest[..size])), rest[size..])
  }

  /** The size field of an encoded packet counts exactly the bytes after it:
      the id, the type, the body and the two terminating NULs. */
  lemma EncodedSizeField(id: int, ptype: Word, body: Bytes)
    requires |body| + 10 < WordLimit
    ensures var p := EncodePacket(id, ptype, body);
      |p| == |body| + 14 && UnLe32(p[..4]) == |p| - 4 == |body| + 10
  {
    var payload := Le32(ToWord(id)) + Le32(ptype) + body + [0, 0];
    var size := |body| + 10;
    assert |payload| == size;
    ToWordOfWord(size);
    var p := Le32(size) + payload;
    assert p[..4] == Le32(size);
    UnLe32Le32(size);
  }

  /** The field layout of an encoded packet:
      LE32(size) ++ LE32(id) ++ LE32(type) ++ body ++ [0, 0]. */
  lemma EncodedLayout(id: int, ptype: Word, body: Bytes)
    ensures var p := EncodePacket(id, ptype, body);
      |p| == |body| + 14
      && UnLe32(p[4..8]) == ToWord(id)
      && UnLe32(p[8..12]) == ptype
      && p[12..|p| - 2] == body
      && p[|p| - 2..] == [0, 0]
  {
    var p := EncodePacket(id, ptype, body);
    assert p[4..8] == Le32(ToWord(id));
    assert p[8..12] == Le32(ptype);
    UnLe32Le32(ToWord(id));
    UnLe32Le32(ptype);
  }

  /** Decoding what encoding produced gives back the id (as the word that was
      sent), the type and the body, whatever bytes the body holds (NULs
      included), and leaves whatever followed the packet unread. */
  lemma RoundTrip(id: int, ptype: Word, body: Bytes, more: Bytes)
    requires |body| + 10 < WordLimit
    ensures ReadFrame(EncodePacket(id, ptype, body) + more)
      == (Some(Response(Some(ToWord(id)), Some(ptype), body)), more)
  {
    var p := EncodePacket(id, ptype, body);
    var s := p + more;
    EncodedSizeField(id, ptype, body);
    EncodedLayout(id, ptype, body);
    assert s[..4] == p[..4];
    var payload := s[4..][..|body| + 10];
    assert payload == p[4..];
    assert payload[..4] == p[4..8];
    assert payload[4..8] == p[8..12];
    assert payload[8..|payload| - 2] == p[12..|p| - 2];
    assert s[4..][|body| + 10..] == more;
  }

  /** A read never yields part of a packet: a response is produced only when
      the full declared size was there, and then exactly the declared bytes
      are consumed. */
  lemma ReadConsumesDeclaredSize(inbound: Bytes)
    ensures var (r, rest) := ReadFrame(inbound);
      r.Some? <==> (|inbound| >= 4 && 0 < UnLe32(inbound[..4]) <= |inbound| - 4)
    ensures var (r, rest) := ReadFrame(inbound);
      r.Some? ==>
        (rest == inbound[4 + UnLe32(inbound[..4])..]
         && r.value == DecodePayload(inbound[4..4 + UnLe32(inbound[..4])]))
  {
    if |inbound| >= 4 {
      var size := UnLe32(inbound[..4]);
      if 0 < size <= |inbound| - 4 {
        assert inbound[4..][..size] == inbound[4..4 + size];
        assert inbound[4..][size..] == inbound[4 + size..];
      }
    }
  }

  /** The signed reading of a word, two's complement. */
  function Signed32(w: Word): int {
    if w < 0x8000_0000 then w else w - WordLimit
  }

  /** The only word that reads as -1 when signed is 0xFFFFFFFF. */
  lemma SignedMinusOne(w: Word)
    ensures Signed32(w) == -1 <==> w == 0xFFFF_FFFF
  {
  }
}
