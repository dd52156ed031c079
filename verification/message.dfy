/**
 Packets: a 16-byte header in network byte order, the raw memory of a metadata object, and a
 payload, all in one byte buffer that is filled and trimmed in place.
 */
module Messages {
  import opened Bytes
  import opened Streams

  const HEADER_SIZE := 16

  const MESSAGE_TYPE_INFO: uint4 := 0
  const MESSAGE_TYPE_BLOCK: uint4 := 1
  const MESSAGE_TYPE_GETBLOCK: uint4 := 2
  const MESSAGE_TYPE_GETINFO: uint4 := 3
  const MESSAGE_TYPE_CGOODBYE: uint4 := 4
  const MESSAGE_TYPE_SGOODBYE: uint4 := 5
  const MESSAGE_TYPE_CHELLO: uint4 := 6

  // Layout: type, length, sender, offset, two bytes of alignment.

  function Header(kind: uint4, length: uint4, sender: uint4, offset: uint2): (h: seq<byte>)
    ensures |h| == HEADER_SIZE
  {
    BigEndian(kind) + BigEndian(length) + BigEndian(sender) + BigEndianShort(offset) + Zeros(2)
  }

  /** The header of a buffer.  A trimmed receive buffer may be shorter than a header; what lies
      behind its end are the zeros it was allocated with. */
  function HeaderOf(buffer: seq<byte>): (h: seq<byte>)
    ensures |h| == HEADER_SIZE
  {
    (buffer + Zeros(HEADER_SIZE))[..HEADER_SIZE]
  }

  function GetType(buffer: seq<byte>): uint4 {
    FromBigEndian(HeaderOf(buffer)[0..4])
  }

  function GetLength(buffer: seq<byte>): uint4 {
    FromBigEndian(HeaderOf(buffer)[4..8])
  }

  function GetSender(buffer: seq<byte>): uint4 {
    FromBigEndian(HeaderOf(buffer)[8..12])
  }

  function GetOffset(buffer: seq<byte>): uint2 {
    FromBigEndianShort(HeaderOf(buffer)[12..14])
  }

  /** `GetPacketLength`, in 32-bit arithmetic. */
  function GetPacketLength(buffer: seq<byte>): uint4 {
    (GetLength(buffer) + GetOffset(buffer)) % TWO_TO_THE_32
  }

  /** The metadata object of the given size, or the error that `get_metadata` throws. */
  function GetMetadata(buffer: seq<byte>, size: nat): (r: Result<seq<byte>>)
    ensures r.Ok? ==> |r.value| == size
  {
    if GetOffset(buffer) != HEADER_SIZE + size then Err("Message header size mismatch")
    else Ok((buffer + Zeros(HEADER_SIZE + size))[HEADER_SIZE..HEADER_SIZE + size])
  }

  /** `get_text`, and what `operator<<` writes. */
  function GetText(buffer: seq<byte>): seq<byte>
    requires GetOffset(buffer) <= |buffer|
  {
    buffer[GetOffset(buffer)..]
  }

  /** Host-order words, as they lie in memory. */
  function WordsIn(s: seq<byte>): (words: seq<uint4>)
    ensures |words| == |s| / 4
  {
    seq(|s| / 4, i requires 0 <= i < |s| / 4 => FromLittleEndian(s[4 * i..4 * i + 4]))
  }

  /** `get_array<unsigned>`, or the error that it throws. */
  function GetArray(buffer: seq<byte>): (r: Result<seq<uint4>>)
    requires GetOffset(buffer) + GetLength(buffer) <= |buffer|
  {
    if GetLength(buffer) % 4 != 0 then Err("Invalid buffer length for this type")
    else Ok(WordsIn(buffer[GetOffset(buffer)..GetOffset(buffer) + GetLength(buffer)]))
  }

  /** The check that sending and receiving make of a packet. */
  predicate LengthChecks(buffer: seq<byte>) {
    GetPacketLength(buffer) == |buffer|
  }

  /** A packet whose length field says `length` and whose body is `body`. */
  function Build(sender: uint4, kind: uint4, meta: seq<byte>, length: uint4, body: seq<byte>): seq<byte>
    requires HEADER_SIZE + |meta| < 0x1_0000
  {
    Header(kind, length, sender, HEADER_SIZE + |meta|) + meta + body
  }

  /** The packet that carries `text`. */
  function Packet(sender: uint4, kind: uint4, meta: seq<byte>, text: seq<byte>): seq<byte>
    requires HEADER_SIZE + |meta| < 0x1_0000
  {
    Build(sender, kind, meta, |text| % TWO_TO_THE_32, text)
  }

  /** Refilled with another payload: new length field, same header otherwise. */
  function WithPayload(buffer: seq<byte>, data: seq<byte>): seq<byte>
    requires HEADER_SIZE <= GetOffset(buffer) <= |buffer| && |data| < TWO_TO_THE_32
  {
    buffer[..4] + BigEndian(|data|) + buffer[8..GetOffset(buffer)] + data
  }

  lemma HeaderFields(kind: uint4, length: uint4, sender: uint4, offset: uint2, rest: seq<byte>)
    ensures
      var b := Header(kind, length, sender, offset) + rest;
      GetType(b) == kind && GetLength(b) == length && GetSender(b) == sender && GetOffset(b) == offset
  {
    hide BigEndian, BigEndianShort, FromBigEndian, FromBigEndianShort;
    var b := Header(kind, length, sender, offset) + rest;
    var h := HeaderOf(b);
    assert h == Header(kind, length, sender, offset);
    assert h[0..4] == BigEndian(kind) && h[4..8] == BigEndian(length);
    assert h[8..12] == BigEndian(sender) && h[12..14] == BigEndianShort(offset);
    WordRoundTrip(kind);
    WordRoundTrip(length);
    WordRoundTrip(sender);
    ShortRoundTrip(offset);
  }

  lemma BuildFields(sender: uint4, kind: uint4, meta: seq<byte>, length: uint4, body: seq<byte>)
    requires HEADER_SIZE + |meta| < 0x1_0000
    ensures
      var b := Build(sender, kind, meta, length, body);
      && |b| == HEADER_SIZE + |meta| + |body|
      && GetType(b) == kind && GetLength(b) == length && GetSender(b) == sender
      && GetOffset(b) == HEADER_SIZE + |meta|
  {
    hide Header, GetType, GetLength, GetSender, GetOffset;
    HeaderFields(kind, length, sender, HEADER_SIZE + |meta|, meta + body);
    var h := Header(kind, length, sender, HEADER_SIZE + |meta|);
    assert h + (meta + body) == h + meta + body;
  }

  lemma BuildParts(sender: uint4, kind: uint4, meta: seq<byte>, length: uint4, body: seq<byte>)
    requires HEADER_SIZE + |meta| < 0x1_0000
    ensures
      var b := Build(sender, kind, meta, length, body);
      && GetOffset(b) <= |b| && GetText(b) == body
      && GetMetadata(b, |meta|) == Ok(meta)
      && forall size: nat :: size != |meta| ==> GetMetadata(b, size).Err?
  {
    hide Header, GetType, GetLength, GetSender, GetOffset;
    BuildFields(sender, kind, meta, length, body);
    var b := Build(sender, kind, meta, length, body);
    assert b[HEADER_SIZE..HEADER_SIZE + |meta|] == meta;
    assert (b + Zeros(HEADER_SIZE + |meta|))[HEADER_SIZE..HEADER_SIZE + |meta|] == meta;
  }

  /** Where everything is on the wire. */
  lemma PacketLayout(sender: uint4, kind: uint4, meta: seq<byte>, text: seq<byte>)
    requires HEADER_SIZE + |meta| < 0x1_0000
    ensures
      var p := Packet(sender, kind, meta, text);
      && |p| == 16 + |meta| + |text|
      && p[..4] == BigEndian(kind) && p[4..8] == BigEndian(|text| % TWO_TO_THE_32) && p[8..12] == BigEndian(sender)
      && p[12..14] == BigEndianShort(16 + |meta|) && p[14..16] == [0, 0]
      && p[16..16 + |meta|] == meta && p[16 + |meta|..] == text
  {
    hide BigEndian, BigEndianShort;
    assert Zeros(2) == [0, 0];
  }

  /** What went in comes out: every getter, for every sender, type, metadata and text; the
      metadata under its own size and no other. */
  lemma PacketRoundTrip(sender: uint4, kind: uint4, meta: seq<byte>, text: seq<byte>)
    requires HEADER_SIZE + |meta| < 0x1_0000
    ensures
      var p := Packet(sender, kind, meta, text);
      && GetType(p) == kind && GetSender(p) == sender && GetLength(p) == |text| % TWO_TO_THE_32
      && GetOffset(p) <= |p| && GetText(p) == text
      && GetMetadata(p, |meta|) == Ok(meta)
      && (forall size: nat :: size != |meta| ==> GetMetadata(p, size).Err?)
  {
    hide Build, GetType, GetLength, GetSender, GetOffset, GetMetadata, GetText;
    BuildFields(sender, kind, meta, |text| % TWO_TO_THE_32, text);
    BuildParts(sender, kind, meta, |text| % TWO_TO_THE_32, text);
  }

  /** What an array of words leaves in memory. */
  function ArrayImage(words: seq<uint4>): (s: seq<byte>)
    ensures |s| == 4 * |words|
  {
    if words == [] then [] else ArrayImage(words[..|words| - 1]) + LittleEndian(words[|words| - 1])
  }

  lemma {:induction false} ArrayImageAt(words: seq<uint4>, i: nat)
    requires i < |words|
    ensures ArrayImage(words)[4 * i..4 * i + 4] == LittleEndian(words[i])
  {
    hide LittleEndian;
    var front, last := words[..|words| - 1], words[|words| - 1];
    if i == |words| - 1 {
    } else {
      ArrayImageAt(front, i);
      assert ArrayImage(words)[4 * i..4 * i + 4] == ArrayImage(front)[4 * i..4 * i + 4];
    }
  }

  lemma WordsInImage(words: seq<uint4>)
    ensures WordsIn(ArrayImage(words)) == words
  {
    hide LittleEndian, FromLittleEndian, ArrayImage;
    forall i | 0 <= i < |words|
      ensures WordsIn(ArrayImage(words))[i] == words[i]
    {
      ArrayImageAt(words, i);
      WordRoundTrip(words[i]);
    }
  }

  /** An array sent as the payload of a packet is the array that is read, if its size fits the
      length field. */
  lemma ArrayRoundTrip(sender: uint4, kind: uint4, meta: seq<byte>, words: seq<uint4>)
    requires HEADER_SIZE + |meta| < 0x1_0000 && 4 * |words| < TWO_TO_THE_32
    ensures
      var p := Packet(sender, kind, meta, ArrayImage(words));
      GetOffset(p) + GetLength(p) <= |p| && GetArray(p) == Ok(words)
  {
    hide Build, GetOffset, GetLength, ArrayImage, WordsIn;
    var s := ArrayImage(words);
    var p := Packet(sender, kind, meta, s);
    BuildFields(sender, kind, meta, |s| % TWO_TO_THE_32, s);
    BuildParts(sender, kind, meta, |s| % TWO_TO_THE_32, s);
    assert p[GetOffset(p)..GetOffset(p) + GetLength(p)] == GetText(p);
    WordsInImage(words);
  }

  /** A payload whose length is no multiple of the size of a word is refused. */
  lemma ArrayRefused(sender: uint4, kind: uint4, meta: seq<byte>, text: seq<byte>)
    requires HEADER_SIZE + |meta| < 0x1_0000
    ensures
      var p := Packet(sender, kind, meta, text);
      GetOffset(p) + GetLength(p) <= |p| && (GetArray(p).Err? <==> |text| % 4 != 0)
  {
    hide Build, GetOffset, GetLength, FromLittleEndian;
    BuildFields(sender, kind, meta, |text| % TWO_TO_THE_32, text);
  }

  /** The length check of sending and receiving passes exactly when the packet is shorter than
      2^32 bytes. */
  lemma PacketLengthExact(sender: uint4, kind: uint4, meta: seq<byte>, text: seq<byte>)
    requires HEADER_SIZE + |meta| < 0x1_0000
    ensures
      var p := Packet(sender, kind, meta, text);
      LengthChecks(p) <==> |p| < TWO_TO_THE_32
  {
    hide Build, GetType, GetLength, GetSender, GetOffset;
    BuildFields(sender, kind, meta, |text| % TWO_TO_THE_32, text);
  }

  lemma RefillIsPacket(sender: uint4, kind: uint4, meta: seq<byte>, length: uint4, body: seq<byte>, data: seq<byte>)
    requires HEADER_SIZE + |meta| < 0x1_0000 && |data| < TWO_TO_THE_32
    ensures
      var b := Build(sender, kind, meta, length, body);
      GetOffset(b) == HEADER_SIZE + |meta| <= |b| && WithPayload(b, data) == Packet(sender, kind, meta, data)
  {
    hide BigEndian, BigEndianShort, GetOffset, GetLength;
    BuildFields(sender, kind, meta, length, body);
    var b := Build(sender, kind, meta, length, body);
    assert b[..4] == BigEndian(kind);
    assert b[8..HEADER_SIZE + |meta|] == BigEndian(sender) + BigEndianShort(HEADER_SIZE + |meta|) + Zeros(2) + meta;
  }

  // The receive buffer.

  /** `recvfrom` into `Message(4096)`: the datagram, cut off at the size of the buffer, then
      checked against the length its own header announces. */
  function Receive(datagram: seq<byte>): Result<seq<byte>> {
    var buffer := datagram[..Min(|datagram|, 4096 + HEADER_SIZE)];
    if buffer == [] then Err("Received zero bytes on UDP socket")
    else if !LengthChecks(buffer) then Err("Invalid packet length")
    else Ok(buffer)
  }

  /** A packet that announces its own length is received unchanged if it fits the buffer, and is
      always rejected if it had to be cut off. */
  lemma ReceiveExact(packet: seq<byte>)
    requires |packet| >= HEADER_SIZE && LengthChecks(packet)
    ensures |packet| <= 4096 + HEADER_SIZE ==> Receive(packet) == Ok(packet)
    ensures |packet| > 4096 + HEADER_SIZE ==> Receive(packet) == Err("Invalid packet length")
  {
    var n := Min(|packet|, 4096 + HEADER_SIZE);
    assert HeaderOf(packet[..n]) == HeaderOf(packet);
    if n == |packet| {
      assert packet[..n] == packet;
    }
  }

  /** Packets with metadata are well-formed, and are read as what they were built from. */
  lemma PacketFields(sender: uint4, kind: uint4, meta: seq<byte>, text: seq<byte>)
    requires HEADER_SIZE + |meta| + |text| < TWO_TO_THE_32 && HEADER_SIZE + |meta| < 0x1_0000
    ensures
      var p := Packet(sender, kind, meta, text);
      && Receive(p) == (if |p| <= 4096 + HEADER_SIZE then Ok(p) else Err("Invalid packet length"))
      && |p| == HEADER_SIZE + |meta| + |text|
      && GetType(p) == kind && GetOffset(p) + GetLength(p) == |p| && GetText(p) == text
      && GetMetadata(p, |meta|) == Ok(meta)
  {
    hide Packet, Receive, GetType, GetOffset, GetLength, GetText, GetMetadata, GetPacketLength;
    PacketRoundTrip(sender, kind, meta, text);
    PacketLengthExact(sender, kind, meta, text);
    PacketSizes(sender, kind, meta, text);
    ReceiveExact(Packet(sender, kind, meta, text));
  }

  lemma PacketSizes(sender: uint4, kind: uint4, meta: seq<byte>, text: seq<byte>)
    requires HEADER_SIZE + |meta| + |text| < TWO_TO_THE_32 && HEADER_SIZE + |meta| < 0x1_0000
    ensures
      var p := Packet(sender, kind, meta, text);
      |p| == HEADER_SIZE + |meta| + |text| && GetOffset(p) + GetLength(p) == |p|
  {
    hide Build, GetOffset, GetLength;
    BuildFields(sender, kind, meta, |text| % TWO_TO_THE_32, text);
  }

  /** What `process_message` starts with. */
  method ReceiveMessage(datagram: seq<byte>) returns (r: Result<seq<byte>>)
    ensures r == Receive(datagram)
  {
    hide GetPacketLength;
    var message := new Message.Incoming(4096);
    var ok := message.ReceiveFrom(datagram);
    if ok {
      r := Ok(message.buffer);
    } else {
      r := Err(if datagram == [] then "Received zero bytes on UDP socket" else "Invalid packet length");
    }
  }

  class Message {
    var buffer: seq<byte>

    /** A buffer to receive into. */
    constructor Incoming(reserve: nat)
      ensures buffer == Zeros(reserve + HEADER_SIZE)
    {
      buffer := Zeros(reserve + HEADER_SIZE);
    }

    /** The socket's `operator>>`; false if it throws.  The datagram overwrites the front of the
        buffer, which is then trimmed to what arrived. */
    method ReceiveFrom(datagram: seq<byte>) returns (ok: bool)
      modifies this
      ensures
        var bytes := Min(|datagram|, |old(buffer)|);
        && buffer == (if bytes == 0 then old(buffer) else datagram[..bytes])
        && (ok <==> bytes > 0 && LengthChecks(buffer))
    {
      hide GetPacketLength;
      var bytes := Min(|datagram|, |buffer|);
      if bytes == 0 {
        return false;
      }
      buffer := datagram[..bytes] + buffer[bytes..];
      buffer := buffer[..bytes];
      return GetPacketLength(buffer) == bytes;
    }

    /** Metadata and room for `reserve` bytes of payload.  Without metadata and room this is
        the bodiless message. */
    constructor WithReserve(sender: uint4, kind: uint4, meta: seq<byte>, reserve: nat)
      requires HEADER_SIZE + |meta| < 0x1_0000
      ensures buffer == Build(sender, kind, meta, 0, Zeros(reserve))
    {
      hide Header;
      buffer := Header(kind, 0, sender, HEADER_SIZE + |meta|) + meta + Zeros(reserve);
    }

    constructor WithText(sender: uint4, kind: uint4, meta: seq<byte>, text: seq<byte>)
      requires HEADER_SIZE + |meta| < 0x1_0000
      ensures buffer == Packet(sender, kind, meta, text)
    {
      hide Header;
      buffer := Header(kind, |text| % TWO_TO_THE_32, sender, HEADER_SIZE + |meta|) + meta + text;
    }

    /** `operator>>`: read the payload from a stream, record its length, trim the buffer.  A
        buffer that already has data is left alone. */
    method Fill(stream: InputStream) returns (data: seq<byte>)
      requires HEADER_SIZE <= GetOffset(buffer) <= |buffer| < TWO_TO_THE_32
      modifies this, stream
      ensures old(GetLength(buffer)) != 0 ==>
        data == [] && buffer == old(buffer) && stream.pos == old(stream.pos) && stream.good == old(stream.good)
      ensures old(GetLength(buffer)) == 0 ==>
        var room := |old(buffer)| - GetOffset(old(buffer));
        && data == (if old(stream.good) then Slice(stream.content, old(stream.pos), room) else [])
        && stream.pos == old(stream.pos) + |data|
        && stream.good == (old(stream.good) && |data| == room)
        && |data| <= room
        && buffer == WithPayload(old(buffer), data)
    {
      hide BigEndian, GetOffset, GetLength, Slice;
      data := [];
      if GetLength(buffer) == 0 {
        var offset := GetOffset(buffer);
        data := stream.Read(|buffer| - offset);
        buffer := buffer[..4] + BigEndian(|data|) + buffer[8..offset] + data;
      }
    }
  }
}
