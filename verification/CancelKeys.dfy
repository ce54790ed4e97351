/** The cancel registry of the server (internal/proxy/server.go): a map keyed by a packed
    (process id, secret key) pair, and the 16-byte cancel packet (internal/proxy/connection.go). */
module CancelKeys {
  import opened Options

  /** A backend connection's BackendKeyData. */
  datatype Key = Key(pid: bv32, secret: bv32)

  /** The identity of a proxy session, standing for its *Connection pointer. */
  type Sid = nat

  /** makeCancelKey: the process id in the high half, the secret key in the low half. */
  function Pack(key: Key): bv64 {
    ((key.pid as bv64) << 32) | (key.secret as bv64)
  }

  /** The inverse of makeCancelKey; the server itself never unpacks. */
  function Unpack(packed: bv64): Key {
    Key((packed >> 32) as bv32, (packed & 0xFFFF_FFFF) as bv32)
  }

  lemma UnpackPack(key: Key)
    ensures Unpack(Pack(key)) == key
  {
    assert Pack(key) >> 32 == key.pid as bv64;
    assert Pack(key) & 0xFFFF_FFFF == key.secret as bv64;
  }

  lemma PackUnpack(packed: bv64)
    ensures Pack(Unpack(packed)) == packed
  {
    assert ((packed >> 32) << 32) | (packed & 0xFFFF_FFFF) == packed;
  }

  lemma PackInjective(a: Key, b: Key)
    ensures Pack(a) == Pack(b) <==> a == b
  {
    UnpackPack(a);
    UnpackPack(b);
  }

  /** The process id is the upper half and the secret key the lower. */
  lemma HalvesOfPack(key: Key)
    ensures Pack(key) >> 32 == key.pid as bv64 && Pack(key) & 0xFFFF_FFFF == key.secret as bv64
    ensures Pack(Key(1, 2)) == 0x0000_0001_0000_0002
  {
  }

  /** The packed registry answers for every pair what a pair-keyed registry would. */
  ghost predicate Represents(packed: map<bv64, Sid>, pairs: map<Key, Sid>) {
    forall key :: Find(packed, Pack(key)) == Find(pairs, key)
  }

  datatype Op =
    | Register(key: Key, sid: Sid)
    | Unregister(key: Key)
    | Lookup(key: Key)

  /** What the operations do to the map the server really keeps, and what the lookups answer. */
  function RunPacked(m: map<bv64, Sid>, ops: seq<Op>): (map<bv64, Sid>, seq<Option<Sid>>)
    decreases |ops|
  {
    if ops == [] then (m, []) else
      match ops[0]
      case Register(key, sid) => RunPacked(m[Pack(key) := sid], ops[1..])
      case Unregister(key) => RunPacked(m - {Pack(key)}, ops[1..])
      case Lookup(key) =>
        var (m', answers) := RunPacked(m, ops[1..]);
        (m', [Find(m, Pack(key))] + answers)
  }

  /** The same operations on a map keyed by the pairs themselves. */
  function RunPairs(m: map<Key, Sid>, ops: seq<Op>): (map<Key, Sid>, seq<Option<Sid>>)
    decreases |ops|
  {
    if ops == [] then (m, []) else
      match ops[0]
      case Register(key, sid) => RunPairs(m[key := sid], ops[1..])
      case Unregister(key) => RunPairs(m - {key}, ops[1..])
      case Lookup(key) =>
        var (m', answers) := RunPairs(m, ops[1..]);
        (m', [Find(m, key)] + answers)
  }

  lemma RepresentsUpdate(packed: map<bv64, Sid>, pairs: map<Key, Sid>, key: Key, sid: Sid)
    requires Represents(packed, pairs)
    ensures Represents(packed[Pack(key) := sid], pairs[key := sid])
    ensures Represents(packed - {Pack(key)}, pairs - {key})
  {
    forall k
      ensures Find(packed[Pack(key) := sid], Pack(k)) == Find(pairs[key := sid], k)
      ensures Find(packed - {Pack(key)}, Pack(k)) == Find(pairs - {key}, k)
    {
      PackInjective(key, k);
      assert Find(packed, Pack(k)) == Find(pairs, k);
    }
  }

  /** Packing loses nothing: over every sequence of operations the packed registry answers every
      lookup as a registry keyed by the pair would, and ends representing the same entries. */
  lemma {:induction false} RegistryRefinesPairs(packed: map<bv64, Sid>, pairs: map<Key, Sid>, ops: seq<Op>)
    requires Represents(packed, pairs)
    ensures Represents(RunPacked(packed, ops).0, RunPairs(pairs, ops).0)
    ensures RunPacked(packed, ops).1 == RunPairs(pairs, ops).1
    decreases |ops|
  {
    if ops != [] {
      match ops[0]
      case Register(key, sid) =>
        RepresentsUpdate(packed, pairs, key, sid);
        RegistryRefinesPairs(packed[Pack(key) := sid], pairs[key := sid], ops[1..]);
      case Unregister(key) =>
        RepresentsUpdate(packed, pairs, key, 0);
        RegistryRefinesPairs(packed - {Pack(key)}, pairs - {key}, ops[1..]);
      case Lookup(key) =>
        assert Find(packed, Pack(key)) == Find(pairs, key);
        RegistryRefinesPairs(packed, pairs, ops[1..]);
    }
  }

  /** The server's registry. `entries` is the pair-keyed view every method keeps in step. */
  class Server {
    var activeConnections: map<bv64, Sid>
    ghost var entries: map<Key, Sid>

    ghost predicate Valid()
      reads this
    {
      Represents(activeConnections, entries)
    }

    constructor ()
      ensures Valid() && entries == map[]
    {
      activeConnections := map[];
      entries := map[];
    }

    method RegisterConnection(key: Key, sid: Sid)
      requires Valid()
      modifies this
      ensures Valid() && entries == old(entries)[key := sid]
    {
      RepresentsUpdate(activeConnections, entries, key, sid);
      activeConnections := activeConnections[Pack(key) := sid];
      entries := entries[key := sid];
    }

    /** Deletes by key alone: the caller's session plays no part. */
    method UnregisterConnection(key: Key)
      requires Valid()
      modifies this
      ensures Valid() && entries == old(entries) - {key}
    {
      RepresentsUpdate(activeConnections, entries, key, 0);
      activeConnections := activeConnections - {Pack(key)};
      entries := entries - {key};
    }

    method GetConnectionForCancelRequest(key: Key) returns (sid: Option<Sid>)
      requires Valid()
      ensures sid == Find(entries, key)
    {
      assert Find(activeConnections, Pack(key)) == Find(entries, key);
      sid := Find(activeConnections, Pack(key));
    }
  }

  const CANCEL_REQUEST_CODE: bv32 := 80877102
  const SSL_REQUEST_CODE: bv32 := 80877103

  function BigEndian(v: bv32): seq<bv8> {
    [((v >> 24) & 0xFF) as bv8, ((v >> 16) & 0xFF) as bv8, ((v >> 8) & 0xFF) as bv8, (v & 0xFF) as bv8]
  }

  /** How a PostgreSQL server reads an Int32 off the wire. */
  function ReadInt32(bytes: seq<bv8>): bv32
    requires |bytes| == 4
  {
    ((bytes[0] as bv32) << 24) | ((bytes[1] as bv32) << 16) | ((bytes[2] as bv32) << 8) | (bytes[3] as bv32)
  }

  /** Four base-256 digits, the highest first. */
  lemma BigEndianIs(v: bv32)
    ensures |BigEndian(v)| == 4
    ensures v == (BigEndian(v)[0] as bv32) * 0x100_0000 + (BigEndian(v)[1] as bv32) * 0x1_0000
               + (BigEndian(v)[2] as bv32) * 0x100 + BigEndian(v)[3] as bv32
  {
  }

  /** The two request codes are 1234 and 5678 or 5679, in two bytes each. */
  lemma RequestCodes()
    ensures BigEndian(CANCEL_REQUEST_CODE) == [4, 210, 22, 46] && 4 * 256 + 210 == 1234 && 22 * 256 + 46 == 5678
    ensures BigEndian(SSL_REQUEST_CODE) == [4, 210, 22, 47] && 22 * 256 + 47 == 5679
    ensures BigEndian(16) == [0, 0, 0, 16] && BigEndian(8) == [0, 0, 0, 8]
  {
  }

  lemma ReadBigEndian(v: bv32)
    ensures ReadInt32(BigEndian(v)) == v
  {
  }

  /** binary.BigEndian.PutUint32 on a slice of the buffer. */
  method PutUint32(buf: array<bv8>, at: nat, v: bv32)
    requires at + 4 <= buf.Length
    modifies buf
    ensures buf[at..at + 4] == BigEndian(v)
    ensures buf[..at] == old(buf[..at]) && buf[at + 4..] == old(buf[at + 4..])
  {
    buf[at] := ((v >> 24) & 0xFF) as bv8;
    buf[at + 1] := ((v >> 16) & 0xFF) as bv8;
    buf[at + 2] := ((v >> 8) & 0xFF) as bv8;
    buf[at + 3] := (v & 0xFF) as bv8;
  }

  /** What a PostgreSQL postmaster makes of the first packet of a connection: the CancelRequest and
      SSLRequest formats of section 55.7 (Message Formats) of the PostgreSQL 16 documentation. */
  datatype FirstPacket = Cancel(key: Key) | Ssl | Unknown

  function DecodeFirstPacket(bytes: seq<bv8>): FirstPacket {
    if |bytes| == 16 && ReadInt32(bytes[..4]) == 16 && ReadInt32(bytes[4..8]) == CANCEL_REQUEST_CODE then
      Cancel(Key(ReadInt32(bytes[8..12]), ReadInt32(bytes[12..])))
    else if |bytes| == 8 && ReadInt32(bytes[..4]) == 8 && ReadInt32(bytes[4..]) == SSL_REQUEST_CODE then
      Ssl
    else
      Unknown
  }

  lemma CancelPacketDecodes(key: Key)
    ensures var bytes := BigEndian(16) + BigEndian(CANCEL_REQUEST_CODE) + BigEndian(key.pid) + BigEndian(key.secret);
      DecodeFirstPacket(bytes) == Cancel(key)
  {
    var bytes := BigEndian(16) + BigEndian(CANCEL_REQUEST_CODE) + BigEndian(key.pid) + BigEndian(key.secret);
    assert bytes[..4] == BigEndian(16) && bytes[4..8] == BigEndian(CANCEL_REQUEST_CODE);
    assert bytes[8..12] == BigEndian(key.pid) && bytes[12..] == BigEndian(key.secret);
    ReadBigEndian(16);
    ReadBigEndian(CANCEL_REQUEST_CODE);
    ReadBigEndian(key.pid);
    ReadBigEndian(key.secret);
  }

  /** The buffer cancelRequest fills: a PostgreSQL server reads from it the very pair it was given. */
  method CancelPacket(key: Key) returns (buf: array<bv8>)
    ensures DecodeFirstPacket(buf[..]) == Cancel(key)
    ensures buf[..] == [0, 0, 0, 16, 4, 210, 22, 46] + BigEndian(key.pid) + BigEndian(key.secret)
  {
    buf := new bv8[16];
    PutUint32(buf, 0, 16);
    PutUint32(buf, 4, CANCEL_REQUEST_CODE);
    assert buf[..8] == buf[..4] + buf[4..8] == BigEndian(16) + BigEndian(CANCEL_REQUEST_CODE);
    PutUint32(buf, 8, key.pid);
    assert buf[..12] == buf[..8] + buf[8..12];
    PutUint32(buf, 12, key.secret);
    assert buf[..] == buf[..12] + buf[12..16];
    assert buf[..] == BigEndian(16) + BigEndian(CANCEL_REQUEST_CODE) + BigEndian(key.pid) + BigEndian(key.secret);
    CancelPacketDecodes(key);
    RequestCodes();
  }

  /** From the key a session registered to the bytes that reach the backend: a client that sends
      back the pair it was given finds the session, and the packet forwarded names that pair. */
  method CancelRoundTrip(server: Server, key: Key, sid: Sid, cancelled: Key)
    returns (found: Option<Sid>, bytes: seq<bv8>)
    requires server.Valid()
    modifies server
    ensures cancelled == key ==> found == Some(sid) && DecodeFirstPacket(bytes) == Cancel(key)
    ensures cancelled != key ==> found == Find(old(server.entries), cancelled)
  {
    server.RegisterConnection(key, sid);
    found := server.GetConnectionForCancelRequest(cancelled);
    bytes := [];
    if found.Some? {
      var buf := CancelPacket(cancelled);
      bytes := buf[..];
    }
  }
}
