/** The MONode wire codec: a packet is a 12-byte header (total size as a
    UInt32, type tag as an Int32, sender id as an Int32) followed by the raw
    payload, whose length is implied by the total size. */
module Packets {
  import opened Wrappers
  import opened Bytes

  /** The packet type, identified by its raw 32-bit tag. */
  datatype PacketType = PacketType(rawValue: Int32)

  /** First packet sent when a connection is made. */
  const Handshake: PacketType := PacketType(0)

  /** Packet sent periodically to detect disconnected nodes. */
  const Ping: PacketType := PacketType(1)

  /** `PacketType ==`: equality of raw values. */
  predicate SameType(a: PacketType, b: PacketType) {
    a.rawValue == b.rawValue
  }

  lemma SameTypeIsIdentity(a: PacketType, b: PacketType)
    ensures SameType(a, b) <==> a == b
    ensures !SameType(Handshake, Ping)
  {
  }

  datatype PacketSerializationError = NotEnoughData

  datatype Packet = Packet(packetType: PacketType, id: Int32, payload: Option<seq<Byte>>)

  /** The size of a packet with no payload: a UInt32 and two 4-byte Int32 fields. */
  const BasePacketSize: nat := IntegerSize + IntegerSize + IntegerSize

  lemma BasePacketSizeIsTwelve()
    ensures BasePacketSize == 12
  {
  }

  /** `Packet ==`: type and id only, the payload is never compared. */
  predicate SamePacket(a: Packet, b: Packet) {
    SameType(a.packetType, b.packetType) && a.id == b.id
  }

  lemma SamePacketIgnoresPayload(a: Packet, b: Packet, d: Option<seq<Byte>>, e: Option<seq<Byte>>)
    ensures SamePacket(a, b) <==> SamePacket(a.(payload := d), b.(payload := e))
    ensures SamePacket(a, a)
    ensures SamePacket(a, b) ==> SamePacket(b, a)
  {
  }

  /** The payload bytes, none when there is no payload. */
  function PayloadBytes(p: Packet): seq<Byte> {
    p.payload.GetOr([])
  }

  /** `UInt32(basePacketSize + payloadSize)` traps unless the size fits. */
  predicate Serializable(p: Packet) {
    BasePacketSize + |PayloadBytes(p)| < 0x1_0000_0000
  }

  /** The bytes `serialize` produces: size, type, id, then the payload verbatim. */
  function Encoding(p: Packet): (data: seq<Byte>)
    requires Serializable(p)
    ensures |data| == BasePacketSize + |PayloadBytes(p)|
    ensures data[..IntegerSize] == LittleEndian(|data|)
    ensures data[BasePacketSize..] == PayloadBytes(p)
  {
    LittleEndian(BasePacketSize + |PayloadBytes(p)|)
      + LittleEndianInt32(p.packetType.rawValue)
      + LittleEndianInt32(p.id)
      + PayloadBytes(p)
  }

  /** `serialize()`: builds the buffer by successive appends. */
  method Serialize(p: Packet) returns (data: seq<Byte>)
    requires Serializable(p)
    ensures data == Encoding(p)
    ensures |data| == BasePacketSize + |PayloadBytes(p)|
  {
    var payloadSize := if p.payload.Some? then |p.payload.value| else 0;
    var packetSize: UInt32 := BasePacketSize + payloadSize;
    var packetData := new ByteBuffer(packetSize);
    packetData.AppendUInt32(packetSize);
    packetData.AppendInt32(p.packetType.rawValue);
    packetData.AppendInt32(p.id);
    if p.payload.Some? && |p.payload.value| > 0 {
      packetData.AppendData(p.payload.value);
    }
    data := packetData.bytes;
  }

  /** The size a buffer declares in its first four bytes. */
  function DeclaredSize(data: seq<Byte>): UInt32
    requires |data| >= IntegerSize
  {
    ExtractUInt32(data, 0)
  }

  /** What the decoder demands: `extract` does no bounds check, so the size
      field must be present, and the rest of the header once the size check
      has passed. */
  predicate Decodable(data: seq<Byte>) {
    |data| >= IntegerSize && (DeclaredSize(data) <= |data| ==> |data| >= BasePacketSize)
  }

  /** `init(_ packetData:)`. */
  function Decode(data: seq<Byte>): (r: Result<Packet, PacketSerializationError>)
    requires Decodable(data)
    ensures r.Failure? <==> |data| < DeclaredSize(data)
    ensures r.Failure? ==> r.error == NotEnoughData
    ensures r.Success? ==> (r.value.payload.None? <==> DeclaredSize(data) <= BasePacketSize)
    ensures r.Success? && r.value.payload.Some? ==> r.value.payload.value == data[BasePacketSize..DeclaredSize(data)]
  {
    var packetSize := DeclaredSize(data);
    if |data| < packetSize then Failure(NotEnoughData)
    else
      var payloadSize := packetSize - BasePacketSize;
      Success(Packet(PacketType(ExtractInt32(data, 4)), ExtractInt32(data, 8),
                     if payloadSize > 0 then Some(data[BasePacketSize..packetSize]) else None))
  }

  /** `init(_ packetData:)` as written: a mutable read index advanced field by field. */
  method Deserialize(data: seq<Byte>) returns (r: Result<Packet, PacketSerializationError>)
    requires Decodable(data)
    ensures r == Decode(data)
  {
    var index := 0;
    var packetSize := ExtractUInt32(data, index);
    if |data| < packetSize {
      return Failure(NotEnoughData);
    }
    index := index + IntegerSize;

    var packetType := PacketType(ExtractInt32(data, index));
    index := index + IntegerSize;

    var id := ExtractInt32(data, index);
    index := index + IntegerSize;

    var payloadSize := packetSize - BasePacketSize;
    var payload: Option<seq<Byte>> := None;
    if payloadSize > 0 {
      payload := Some(data[index..index + payloadSize]);
    }
    r := Success(Packet(packetType, id, payload));
  }

  /** What a packet looks like after a round trip: an empty payload comes back
      as no payload. */
  function Normalized(p: Packet): Packet {
    if |PayloadBytes(p)| > 0 then p else p.(payload := None)
  }

  /** The header layout of a serialized packet. */
  lemma {:induction false} EncodingLayout(p: Packet)
    requires Serializable(p)
    ensures |Encoding(p)| == BasePacketSize + |PayloadBytes(p)|
    ensures DeclaredSize(Encoding(p)) == |Encoding(p)|
    ensures ExtractInt32(Encoding(p), 4) == p.packetType.rawValue
    ensures ExtractInt32(Encoding(p), 8) == p.id
    ensures Encoding(p)[BasePacketSize..] == PayloadBytes(p)
  {
    var size := LittleEndian(BasePacketSize + |PayloadBytes(p)|);
    var kind := LittleEndianInt32(p.packetType.rawValue);
    var id := LittleEndianInt32(p.id);
    var payload := PayloadBytes(p);
    assert Encoding(p) == [] + size + (kind + id + payload);
    ExtractAfterAppend([], BasePacketSize + |PayloadBytes(p)|, kind + id + payload);
    assert Encoding(p) == size + kind + (id + payload);
    ExtractInt32AfterAppend(size, p.packetType.rawValue, id + payload);
    assert Encoding(p) == (size + kind) + id + payload;
    ExtractInt32AfterAppend(size + kind, p.id, payload);
  }

  /** Decoding a serialized packet gives back its type, id and payload bytes
      (an empty payload as none); in particular it is `==` to the original. */
  lemma {:induction false} RoundTrip(p: Packet)
    requires Serializable(p)
    ensures Decodable(Encoding(p))
    ensures Decode(Encoding(p)) == Success(Normalized(p))
    ensures SamePacket(Decode(Encoding(p)).value, p)
  {
    EncodingLayout(p);
    var data := Encoding(p);
    assert data[BasePacketSize..DeclaredSize(data)] == PayloadBytes(p);
  }

  /** Every strict prefix that still holds the size field fails to decode. */
  lemma {:induction false} TruncatedFails(p: Packet, n: nat)
    requires Serializable(p)
    requires IntegerSize <= n < |Encoding(p)|
    ensures Decodable(Encoding(p)[..n])
    ensures Decode(Encoding(p)[..n]) == Failure(NotEnoughData)
  {
    EncodingLayout(p);
    var data := Encoding(p);
    ExtractIsLocal(data[..n], data, 0, 0);
  }

  /** Bytes beyond the declared size (datagram padding) are ignored. */
  lemma {:induction false} TrailingBytesIgnored(data: seq<Byte>, extra: seq<Byte>)
    requires Decodable(data) && DeclaredSize(data) <= |data|
    ensures Decodable(data + extra)
    ensures Decode(data + extra) == Decode(data)
  {
    var all := data + extra;
    ExtractIsLocal(all, data, 0, 0);
    ExtractIsLocal(all, data, 4, 4);
    ExtractIsLocal(all, data, 8, 8);
    if DeclaredSize(data) > BasePacketSize {
      assert all[BasePacketSize..DeclaredSize(data)] == data[BasePacketSize..DeclaredSize(data)];
    }
  }

  /** A worked example, byte for byte: a type-2 packet from node 7 carrying the
      payload [1, 2]. */
  lemma BroadcastExampleBytes()
    ensures Encoding(Packet(PacketType(2), 7, Some([1, 2]))) == [14, 0, 0, 0, 2, 0, 0, 0, 7, 0, 0, 0, 1, 2]
  {
  }
}
