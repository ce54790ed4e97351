/** UpgradeToTLS (internal/tls/client-tls.go), the client's half of the TLS negotiation, against the
    SSLRequest case of handleStartupMessage (internal/proxy/startup.go). */
module ClientTls {
  import opened Options
  import opened CancelKeys
  import opened Wire
  import opened Startup
  import opened Connection
  import A = SessionAutomaton

  /** The connection UpgradeToTLS returns: the plain one, or that one under a layer of TLS. */
  datatype Upgraded = Plain | Tls | NotUpgraded

  /** What the reply to a first packet comes to for the client. */
  function Layers(replies: seq<BackendMsg>): nat {
    if replies == [] then 0
    else Layers(replies[1..]) + if replies[0] == SslReply('N') then 0 else 1
  }

  /** What ReceiveStartupMessage makes of a first packet. */
  function PacketOf(packet: FirstPacket): FrontendMsg {
    match packet
    case Ssl => SSLRequest
    case Cancel(key) => CancelRequest(key)
    case Unknown => OtherFrontend(0)
  }

  /** The request UpgradeToTLS writes. */
  method SslRequest() returns (written: seq<bv8>)
    ensures written == [0, 0, 0, 8, 4, 210, 22, 47] && DecodeFirstPacket(written) == Ssl
  {
    var sslreq := new bv8[8];
    PutUint32(sslreq, 0, 8);
    PutUint32(sslreq, 4, SSL_REQUEST_CODE);
    assert sslreq[..4] == BigEndian(8) && sslreq[4..] == sslreq[4..8] == BigEndian(SSL_REQUEST_CODE);
    ReadBigEndian(8);
    ReadBigEndian(SSL_REQUEST_CODE);
    assert sslreq[..][..4] == sslreq[..4] && sslreq[..][4..] == sslreq[4..];
    written := sslreq[..];
    RequestCodes();
    assert written == written[..4] + written[4..];
  }

  /** What UpgradeToTLS makes of the reply, if there is one. */
  method TakeReply(reply: Option<char>, handshake: bool) returns (r: Upgraded)
    ensures r.Plain? <==> reply == Some('N')
    ensures r.Tls? <==> reply.Some? && reply != Some('N') && handshake
  {
    if reply.None? {
      return NotUpgraded;
    }
    if reply.value == 'N' {
      return Plain;
    }
    r := if handshake then Tls else NotUpgraded;
  }

  /** `peer` is what the server answers to the first packet, if it answers. */
  method UpgradeToTLS(writeOk: bool, peer: FirstPacket -> Option<char>, handshake: bool)
    returns (r: Upgraded, written: seq<bv8>)
    ensures writeOk ==> written == [0, 0, 0, 8, 4, 210, 22, 47] && DecodeFirstPacket(written) == Ssl
    ensures r.Plain? <==> writeOk && peer(Ssl) == Some('N')
    ensures r.Tls? <==> writeOk && peer(Ssl).Some? && peer(Ssl) != Some('N') && handshake
  {
    if !writeOk {
      return NotUpgraded, [];
    }
    written := SslRequest();
    r := TakeReply(peer(DecodeFirstPacket(written)), handshake);
  }

  /** A client that upgrades against a proxy, configured for TLS or not, and then goes on without a
      second request: the handshake is one event for both ends. They agree on whether to go on, and on the
      layers of TLS under what follows. */
  method Meet(c: Connection, ghost rest: seq<FrontendMsg>)
    returns (r: Upgraded, written: seq<bv8>, ghost course: Course)
    requires c.Valid() && c.Apart() && c.session == A.STARTED && c.temp.delivered == [] && c.conn == 0
    requires c.client.delivered == [] && c.client.incoming == [SSLRequest] + rest
    requires rest == [] || !rest[0].SSLRequest?
    modifies c.Frame()
    ensures PacketOf(DecodeFirstPacket(written)) == SSLRequest
    ensures r.NotUpgraded? <==> AfterSsl(c.env, HelloAt(old(c.Here()))).None?
    ensures r.NotUpgraded? ==> course.r.StartFailed? && course.sent == []
    ensures r.Plain? ==> !c.env.tls && c.conn == 0
    ensures r.Tls? ==> c.env.tls && c.conn == 1
  {
    ghost var h := HelloAt(c.Here());
    OneRequest(c.env, h, rest);
    var handshake := c.env.handshake(0);
    var started;
    started, course := c.HandleStartupMessage(c.conn, c.Setup());
    RepeatedReplies(c.env.tls, course.ssl);
    var sent := c.client.delivered;
    assert course.ssl > 0 ==> sent != [] && sent[0] == SslReply(if c.env.tls then 'S' else 'N');
    assert course.ssl == 0 ==> sent == [];
    var reply := if sent != [] && sent[0].SslReply? then Some(sent[0].byte) else None;
    r, written := UpgradeToTLS(true, (packet: FirstPacket) => if packet.Ssl? then reply else None, handshake);
  }

  lemma OneRequest(env: Env, h: Hello, rest: seq<FrontendMsg>)
    requires h.script == [SSLRequest] + rest && (rest == [] || !rest[0].SSLRequest?) && h.layer == 0
    ensures var ok := h.client.ok(h.client.next);
      && (AfterSsl(env, h).Some? <==> ok && (env.tls ==> env.handshake(0)))
      && SslReplies(env, h) == (if ok then 1 else 0, if ok && env.tls && env.handshake(0) then 1 else 0)
  {
    var next := Hello(h.script[1..], Later(h.client, 1), if env.tls then 1 else 0);
    assert h.script[1..] == rest;
    assert AfterSsl(env, next).Some? && SslReplies(env, next) == (0, next.layer);
  }

  lemma {:induction false} RepeatedReplies(tls: bool, n: nat)
    ensures |Repeat(SslByte(tls), n)| == n
    ensures forall i :: 0 <= i < n ==> Repeat(SslByte(tls), n)[i] == SslReply(if tls then 'S' else 'N')
    ensures Layers(Repeat(SslByte(tls), n)) == if tls then n else 0
  {
    if n > 0 {
      RepeatedReplies(tls, n - 1);
      assert Repeat(SslByte(tls), n)[1..] == Repeat(SslByte(tls), n - 1);
    }
  }

  /** However often a client asks, a startup that gets through has answered every request once, and a
      client that adds a layer for each acceptance has as many as the proxy. */
  lemma EveryRequestAnsweredAlike(a: Snapshot, b: Snapshot, tls: bool, c: Course)
    requires Negotiated(a, b, tls, c) && (c.r.Entered? || c.r.FellThrough?)
    ensures c.ssl == LeadingSsl(a.incoming) && |a.delivered| + c.ssl <= |b.delivered|
    ensures forall i :: |a.delivered| <= i < |a.delivered| + c.ssl ==>
      b.delivered[i] == SslReply(if tls then 'S' else 'N')
    ensures b.conn == c.r.layer == a.conn + Layers(b.delivered[|a.delivered|..|a.delivered| + c.ssl])
  {
    var ssl, opening := c.ssl, c.opening;
    assert a.read + (Repeat(SSLRequest, ssl) + opening + b.incoming) == a.read + a.incoming;
    assert a.incoming == (a.read + a.incoming)[|a.read|..] == Repeat(SSLRequest, ssl) + (opening + b.incoming);
    LeadingSslOf(ssl, opening + b.incoming);
    RepeatedReplies(tls, ssl);
    var replies := b.delivered[|a.delivered|..|a.delivered| + ssl];
    assert replies == Repeat(SslByte(tls), ssl);
    assert forall i :: |a.delivered| <= i < |a.delivered| + ssl ==> b.delivered[i] == replies[i - |a.delivered|];
  }
}
