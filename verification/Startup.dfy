/** What a startup may do (internal/proxy/startup.go): what it makes of the client's and the backend's
    messages, what it sends, and how it ends. Module Connection has the code. */
module Startup {
  import opened Options
  import opened CancelKeys
  import opened PooledBackend
  import opened Wire
  import opened Authenticator
  import A = SessionAutomaton
  import BackendAuth

  /** What the pool does when asked for a connection. */
  datatype PoolAnswer =
    | NoConnection
    | Gives(conn: PooledConn, wire: BackendWire, isNew: bool, pingIo: bool, pingDestroys: bool)

  /** The environment's decisions. Handshake `n` is the one over `n` layers of TLS. */
  datatype Env = Env(
    tls: bool, handshake: nat -> bool, dialled: bool, tokens: Tokens, crypto: BackendAuth.Crypto,
    pool: PoolAnswer, rollbackIo: bool, discardIo: bool, releaseDestroys: bool, cancelDialled: bool)

  datatype Started =
    | Entered(layer: nat)        // the Backend returned wraps this layer of the client connection
    | FellThrough(layer: nat)    // a startup kind the switch does not know: no error, no connection
    | StartFailed
    | StartHangs
    | Crashes                    // a nil pointer is followed

  /** A startup: `ssl` SSL requests were answered, then the client sent `opening` and was sent `sent`;
      the temporary connection's backend said `got`. */
  datatype Course = Course(r: Started, ssl: nat, got: seq<BackendMsg>, sent: seq<BackendMsg>, opening: seq<FrontendMsg>)

  function Param(parameters: map<string, string>, name: string): string {
    if name in parameters then parameters[name] else ""
  }

  function Repeat<T>(x: T, n: nat): seq<T> {
    if n == 0 then [] else [x] + Repeat(x, n - 1)
  }

  lemma RepeatMore<T>(x: T, n: nat)
    ensures Repeat(x, n + 1) == [x] + Repeat(x, n) == Repeat(x, 1) + Repeat(x, n)
  {
    assert Repeat(x, 1) == [x] + Repeat(x, 0) == [x];
  }

  /** What makes AuthenticateUser follow a nil pointer. */
  predicate ReadyWithoutKey(got: seq<BackendMsg>) {
    GotReady(got) && BackendAuth.LastKey(got).None?
  }

  predicate LoggedIn(got: seq<BackendMsg>) {
    GotReady(got) && BackendAuth.LastKey(got).Some?
  }

  function SslByte(tls: bool): BackendMsg {
    SslReply(if tls then 'S' else 'N')
  }

  /** All a client can be sent before the query loop, the replies to SSL requests aside: nothing of the
      pooled connection before its login has succeeded. */
  function Welcome(got: seq<BackendMsg>, pool: PoolAnswer): seq<BackendMsg> {
    Greeting(got) + if LoggedIn(got) then Published(pool) else []
  }

  function Published(pool: PoolAnswer): seq<BackendMsg> {
    if pool.Gives? then [BackendKeyData(pool.conn.key), ReadyForQuery(Idle)] else []
  }

  lemma CutShortLonger(sent: seq<BackendMsg>, whole: seq<BackendMsg>, longer: seq<BackendMsg>)
    requires CutShort(sent, whole) && whole <= longer
    ensures CutShort(sent, longer)
  {
    var n: nat, e :| CutAt(sent, whole, n, e);
    assert longer[..n] == whole[..n];
    assert CutAt(sent, longer, n, e);
  }

  // ----- What was sent and read -----

  /** The temporary connection, whether either peer hangs up when it has no more to say, the state of the
      connection the pool would give, the registry, the steps recorded and the cancel packet written. */
  datatype Rest = Rest(
    tempRead: seq<BackendMsg>, tempIncoming: seq<BackendMsg>, tempDelivered: seq<FrontendMsg>, temp: Sender,
    closes: bool, tempCloses: bool, pool: Backend, entries: map<Key, Sid>, acts: seq<A.Act>, packet: seq<bv8>)

  /** What a startup changes, before and after. */
  datatype Snapshot = Snapshot(
    read: seq<FrontendMsg>, incoming: seq<FrontendMsg>, delivered: seq<BackendMsg>, client: Sender,
    conn: nat, rest: Rest)

  /** The client's messages that decided the startup, behind the SSL requests. */
  predicate Opening(r: Started, opening: seq<FrontendMsg>) {
    && (r.Entered? ==> |opening| == 2 && opening[0].StartupMessage? && opening[1].PasswordMessage?)
    && (r.FellThrough? ==> opening == [GSSEncRequest])
  }

  /** The replies to SSL requests are all acceptances or all refusals; each acceptance put the client
      connection, and the Backend that is returned, one layer further. */
  predicate Negotiated(a: Snapshot, b: Snapshot, tls: bool, c: Course) {
    match c
    case Course(r, ssl, got, sent, opening) =>
      && b.delivered == a.delivered + Repeat(SslByte(tls), ssl) + sent
      && b.read + b.incoming == a.read + a.incoming
      && b.rest.tempRead == a.rest.tempRead + got && got + b.rest.tempIncoming == a.rest.tempIncoming
      && (r.Entered? || r.FellThrough? ==>
           && r.layer == b.conn == a.conn + (if tls then ssl else 0)
           && b.read == a.read + Repeat(SSLRequest, ssl) + opening && Opening(r, opening))
  }

  /** A startup goes through another one after an SSL request. */
  lemma NegotiatedAgain(a: Snapshot, mid: Snapshot, b: Snapshot, tls: bool, c: Course)
    requires Negotiated(mid, b, tls, c)
    requires mid.delivered == a.delivered + [SslByte(tls)] && mid.read == a.read + [SSLRequest]
    requires mid.read + mid.incoming == a.read + a.incoming
    requires mid.conn == a.conn + (if tls then 1 else 0)
    requires mid.rest == a.rest
    ensures Negotiated(a, b, tls, c.(ssl := c.ssl + 1))
  {
    RepeatMore(SslByte(tls), c.ssl);
    RepeatMore(SSLRequest, c.ssl);
    assert b.delivered == a.delivered + ([SslByte(tls)] + Repeat(SslByte(tls), c.ssl)) + c.sent;
    if c.r.Entered? || c.r.FellThrough? {
      assert b.read == a.read + ([SSLRequest] + Repeat(SSLRequest, c.ssl)) + c.opening;
    }
  }

  /** Nothing follows a reply that cannot be sent, or a handshake that fails. */
  lemma NegotiatedRefused(a: Snapshot, b: Snapshot, tls: bool, c: Course)
    requires c == Course(StartFailed, c.ssl, [], [], [])
    requires b.delivered == a.delivered + Repeat(SslByte(tls), c.ssl) && b.read + b.incoming == a.read + a.incoming
    requires b.rest.tempRead == a.rest.tempRead && b.rest.tempIncoming == a.rest.tempIncoming
    ensures Negotiated(a, b, tls, c)
  {
    assert b.delivered + [] == b.delivered && b.rest.tempRead + [] == b.rest.tempRead;
  }

  lemma NegotiatedWithoutSsl(a: Snapshot, mid: Snapshot, b: Snapshot, tls: bool, packet: Received<FrontendMsg>,
                             c: Course)
    requires mid == a.(read := mid.read, incoming := mid.incoming)
    requires mid.read + mid.incoming == a.read + a.incoming && (packet.Got? ==> mid.read == a.read + [packet.msg])
    requires b.conn == mid.conn && b.delivered == mid.delivered + c.sent
    requires b.read + b.incoming == mid.read + mid.incoming
    requires b.rest.tempRead == mid.rest.tempRead + c.got && c.got + b.rest.tempIncoming == mid.rest.tempIncoming
    requires c.ssl == 0
    requires c.r.Entered? || c.r.FellThrough? ==>
      && packet.Got? && c.opening != [] && c.opening[0] == packet.msg
      && c.r.layer == b.conn && b.read == mid.read + c.opening[1..] && Opening(c.r, c.opening)
    ensures Negotiated(a, b, tls, c)
  {
    assert b.delivered == a.delivered + Repeat(SslByte(tls), 0) + c.sent;
    if c.r.Entered? || c.r.FellThrough? {
      assert c.opening == [packet.msg] + c.opening[1..];
      assert b.read == a.read + Repeat(SSLRequest, 0) + c.opening;
    }
  }

  // ----- How it ends, by what is there at the start -----

  /** A client's messages to come, which sends to it will succeed, and its layers of TLS. */
  datatype Hello = Hello(script: seq<FrontendMsg>, client: Sender, layer: nat)

  function HelloAt(a: Snapshot): Hello {
    Hello(a.incoming, a.client, a.conn)
  }

  /** Where a client stands once its SSL requests are answered, unless a reply or a handshake fails. */
  function AfterSsl(env: Env, h: Hello): Option<Hello>
    decreases |h.script|
  {
    if h.script == [] || !h.script[0].SSLRequest? then Some(h)
    else if h.client.ok(h.client.next) && (env.tls ==> env.handshake(h.layer)) then
      AfterSsl(env, Hello(h.script[1..], Later(h.client, 1), h.layer + if env.tls then 1 else 0))
    else None
  }

  function LeadingSsl(packets: seq<FrontendMsg>): nat {
    if packets != [] && packets[0].SSLRequest? then 1 + LeadingSsl(packets[1..]) else 0
  }

  lemma {:induction false} LeadingSslOf(n: nat, rest: seq<FrontendMsg>)
    requires rest != [] && !rest[0].SSLRequest?
    ensures LeadingSsl(Repeat(SSLRequest, n) + rest) == n
  {
    var packets := Repeat(SSLRequest, n) + rest;
    if n > 0 {
      RepeatMore(SSLRequest, n - 1);
      assert packets[1..] == Repeat(SSLRequest, n - 1) + rest;
      LeadingSslOf(n - 1, rest);
    }
  }

  /** That is: every reply is sent and every handshake succeeds, and it is the rest of the messages. */
  lemma {:induction false} AfterSslMeans(env: Env, h: Hello)
    ensures var n := LeadingSsl(h.script);
      && n <= |h.script|
      && (AfterSsl(env, h).Some? <==>
           Delivers(h.client, n) && (env.tls ==> forall i :: h.layer <= i < h.layer + n ==> env.handshake(i)))
      && (AfterSsl(env, h).Some? ==>
           AfterSsl(env, h).value == Hello(h.script[n..], Later(h.client, n), h.layer + if env.tls then n else 0))
    decreases |h.script|
  {
    if h.script != [] && h.script[0].SSLRequest? {
      AfterSslMeans(env, Hello(h.script[1..], Later(h.client, 1), h.layer + if env.tls then 1 else 0));
      assert h.script[1..][LeadingSsl(h.script[1..])..] == h.script[LeadingSsl(h.script)..];
    }
  }

  /** The next message is of a kind the switch does not know. */
  predicate FallsThrough(h: Option<Hello>) {
    h.Some? && h.value.script != [] && h.value.script[0].GSSEncRequest?
  }

  predicate Starts(h: Option<Hello>) {
    h.Some? && h.value.script != [] && h.value.script[0].StartupMessage?
  }

  predicate Cancels(h: Option<Hello>) {
    h.Some? && h.value.script != [] && h.value.script[0].CancelRequest?
  }

  function ParametersOf(h: Option<Hello>): map<string, string>
    requires Starts(h)
  {
    h.value.script[0].parameters
  }

  function AttemptOf(h: Option<Hello>, a: Rest): Attempt
    requires Starts(h)
  {
    Attempt(h.value.script[1..], h.value.client, a.closes, a.tempIncoming, a.temp, a.tempCloses)
  }

  /** A StartupMessage is next, and the login it asks for gets to the backend's ReadyForQuery. */
  ghost predicate GetsIn(h: Option<Hello>, a: Rest, setup: Setup) {
    Starts(h) && Succeeds(AttemptOf(h, a), Param(ParametersOf(h), "user"), setup)
  }

  /** The client says no more before the startup is decided, or the login it asks for waits for ever. */
  ghost predicate Hangs(h: Option<Hello>, a: Rest, setup: Setup) {
    || (h.Some? && h.value.script == [] && !a.closes)
    || (Starts(h) && Waits(AttemptOf(h, a), Param(ParametersOf(h), "user"), setup))
  }

  /** After its login a session gets a connection that answers the ping, and can tell the client so. */
  predicate Opens(env: Env, client: Sender, pool: Backend) {
    env.pool.Gives? && Exec(pool, Ping, env.pool.pingIo).1 && Delivers(client, 2)
  }

  /** How many SSL requests are answered, and how many layers of TLS there are then. */
  function SslReplies(env: Env, h: Hello): (nat, nat)
    decreases |h.script|
  {
    if h.script == [] || !h.script[0].SSLRequest? || !h.client.ok(h.client.next) then (0, h.layer)
    else if env.tls && !env.handshake(h.layer) then (1, h.layer)
    else
      var (n, layer) := SslReplies(env, Hello(h.script[1..], Later(h.client, 1), h.layer + if env.tls then 1 else 0));
      (n + 1, layer)
  }

  /** How a startup ends, by what there is when its SSL requests are done with. */
  ghost predicate EndsBy(h: Option<Hello>, a: Rest, b: Snapshot, env: Env, setup: Setup, c: Course) {
    match h
    case None => c.r.StartFailed? && c.sent == [] && !GotReady(c.got)
    case Some(x) =>
      && (c.r.FellThrough? <==> FallsThrough(h))
      && (c.r.FellThrough? ==> b.incoming == x.script[1..])
      && (c.r.StartHangs? <==> Hangs(h, a, setup))
      && (c.r.Entered? <==> LoggedIn(c.got) && Opens(env, Later(x.client, |Greeting(c.got)|), a.pool))
      && (GotReady(c.got) <==> GetsIn(h, a, setup))
      && (GotReady(c.got) ==> c.got == UpToReady(a.tempIncoming))
  }

  /** What a startup that gets through has done, in order: logged in, taken a connection of the pool for
      this user and database, pinned it and registered under its key. */
  function ServingActs(env: Env, parameters: map<string, string>, temp: Key): seq<A.Act>
    requires env.pool.Gives?
  {
    [A.AuthDone(temp)] + PinningActs(env, A.PoolKey(Param(parameters, "user"), Param(parameters, "database")))
  }

  function PinningActs(env: Env, pool: A.PoolKey): seq<A.Act>
    requires env.pool.Gives?
  {
    var k := env.pool.conn.key;
    [A.Acquire(pool, k, env.pool.isNew), A.Pin(k), A.Register(k)]
  }

  function EntriesAfter(env: Env, sid: Sid, r: Started, before: map<Key, Sid>): map<Key, Sid> {
    if r.Entered? && env.pool.Gives? then before[env.pool.conn.key := sid] else before
  }

  /** A cancel request was looked up and, if its session was found, passed on to the backend: the bytes
      written name the pair asked for. */
  predicate Cancelled(env: Env, target: Key, a: Rest, b: Rest) {
    && b.acts == a.acts + [A.LookUp(target, Find(a.entries, target))]
    && if target in a.entries && env.cancelDialled then DecodeFirstPacket(b.packet) == Cancel(target)
       else b.packet == a.packet
  }

  /** What a login leaves behind: it was entered if it had a key and the rest opened. */
  ghost predicate LeavesSession(env: Env, sid: Sid, parameters: map<string, string>, r: Started, got: seq<BackendMsg>,
                                client: Sender, a: Rest, b: Rest) {
    match r
    case Entered(_) =>
      && LoggedIn(got) && Opens(env, Later(client, |Greeting(got)|), a.pool)
      && b.acts == a.acts + ServingActs(env, parameters, BackendAuth.LastKey(got).value)
      && b.entries == a.entries[env.pool.conn.key := sid] && b.pool == Exec(a.pool, Ping, env.pool.pingIo).0
    case _ =>
      && !(LoggedIn(got) && Opens(env, Later(client, |Greeting(got)|), a.pool))
      && b.entries == a.entries
      && b.pool == if LoggedIn(got) && env.pool.Gives? then Exec(a.pool, Ping, env.pool.pingIo).0 else a.pool
  }

  /** What a startup leaves behind. */
  ghost predicate Leaves(h: Option<Hello>, a: Rest, b: Rest, env: Env, setup: Setup, sid: Sid, c: Course) {
    match c
    case Course(r, _, got, _, _) =>
      && b.entries == EntriesAfter(env, sid, r, a.entries)
      && b.pool == (if LoggedIn(got) && env.pool.Gives? then Exec(a.pool, Ping, env.pool.pingIo).0 else a.pool)
      && (r.Entered? ==>
           && Starts(h) && LoggedIn(got) && env.pool.Gives?
           && b.acts == a.acts + ServingActs(env, ParametersOf(h), BackendAuth.LastKey(got).value))
      && (if Starts(h) then
            AskedAs(AttemptOf(h, a), Param(ParametersOf(h), "user"), ParametersOf(h), setup, got, b.tempDelivered)
          else b.tempDelivered == a.tempDelivered)
      && (if Cancels(h) then Cancelled(env, h.value.script[0].target, a, b) else b.packet == a.packet)
  }

  /** What the inputs decide of a startup. */
  ghost predicate Decided(a: Snapshot, b: Snapshot, env: Env, setup: Setup, sid: Sid, c: Course) {
    match c
    case Course(_, ssl, _, _, _) =>
      var h := AfterSsl(env, HelloAt(a));
      && EndsBy(h, a.rest, b, env, setup, c) && Leaves(h, a.rest, b.rest, env, setup, sid, c)
      && (ssl, b.conn) == SslReplies(env, HelloAt(a))
  }

  /** Every way a startup can go from here: where it ends, and its course. */
  ghost function Startups(env: Env, setup: Setup, sid: Sid, a: Snapshot): iset<(Snapshot, Course)> {
    iset w: (Snapshot, Course) | Negotiated(a, w.0, env.tls, w.1) && Decided(a, w.0, env, setup, sid, w.1)
  }

  /** An SSL request was answered and a handshake, if any, made: the startup goes on from there. */
  lemma StartupAgain(env: Env, setup: Setup, sid: Sid, a: Snapshot, mid: Snapshot, b: Snapshot, c: Course)
    requires (b, c) in Startups(env, setup, sid, mid)
    requires a.incoming != [] && a.incoming[0].SSLRequest?
    requires a.client.ok(a.client.next) && (env.tls ==> env.handshake(a.conn))
    requires mid == Answered(env, Reading(a))
    ensures (b, c.(ssl := c.ssl + 1)) in Startups(env, setup, sid, a)
  {
    Grouped(a.read, [SSLRequest], a.incoming[1..]);
    assert a.incoming == [SSLRequest] + a.incoming[1..];
    NegotiatedAgain(a, mid, b, env.tls, c);
    assert AfterSsl(env, HelloAt(a)) == AfterSsl(env, HelloAt(mid));
    assert SslReplies(env, HelloAt(a)).0 == SslReplies(env, HelloAt(mid)).0 + 1;
  }

  /** The proxy's answer to an SSL request, sent and carried out. */
  function Answered(env: Env, a: Snapshot): Snapshot {
    a.(delivered := a.delivered + [SslByte(env.tls)], client := Later(a.client, 1),
       conn := a.conn + if env.tls then 1 else 0)
  }

  /** Or it is not: the client connection, or the handshake over it, has failed. */
  function Refused(env: Env, a: Snapshot, acts: seq<A.Act>): Snapshot {
    a.(delivered := a.delivered + Repeat(SslByte(env.tls), if a.client.ok(a.client.next) then 1 else 0),
       client := Later(a.client, 1), rest := a.rest.(acts := acts))
  }

  /** Then it ends there, with nothing more sent. */
  lemma StartupRefused(env: Env, setup: Setup, sid: Sid, a: Snapshot, b: Snapshot, answered: nat)
    requires a.incoming != [] && a.incoming[0].SSLRequest?
    requires !(a.client.ok(a.client.next) && (env.tls ==> env.handshake(a.conn)))
    requires b == Refused(env, Reading(a), b.rest.acts) && answered == if a.client.ok(a.client.next) then 1 else 0
    ensures (b, Course(StartFailed, answered, [], [], [])) in Startups(env, setup, sid, a)
  {
    assert a.incoming == [a.incoming[0]] + a.incoming[1..];
    Grouped(a.read, [a.incoming[0]], a.incoming[1..]);
    NegotiatedRefused(a, b, env.tls, Course(StartFailed, answered, [], [], []));
    assert AfterSsl(env, HelloAt(a)).None?;
    assert SslReplies(env, HelloAt(a)) == (answered, a.conn);
  }

  /** A startup whose first packet is not an SSL request. */
  lemma StartupWithoutSsl(env: Env, setup: Setup, sid: Sid, a: Snapshot, mid: Snapshot, b: Snapshot,
                          packet: Received<FrontendMsg>, c: Course)
    requires packet == First(HelloAt(a), a.rest.closes) != Got(SSLRequest)
    requires mid == Reading(a)
    requires b.conn == mid.conn && b.delivered == mid.delivered + c.sent
    requires b.read + b.incoming == mid.read + mid.incoming
    requires b.rest.tempRead == mid.rest.tempRead + c.got && c.got + b.rest.tempIncoming == mid.rest.tempIncoming
    requires c.ssl == 0
    requires c.r.Entered? || c.r.FellThrough? ==>
      && packet.Got? && c.opening != [] && c.opening[0] == packet.msg
      && c.r.layer == b.conn && b.read == mid.read + c.opening[1..] && Opening(c.r, c.opening)
    requires EndsBy(Some(HelloAt(a)), a.rest, b, env, setup, c)
    requires Leaves(Some(HelloAt(a)), a.rest, b.rest, env, setup, sid, c)
    ensures (b, c) in Startups(env, setup, sid, a)
  {
    if packet.Got? {
      assert a.incoming == [packet.msg] + mid.incoming;
      Grouped(a.read, [packet.msg], mid.incoming);
    }
    NegotiatedWithoutSsl(a, mid, b, env.tls, packet, c);
    assert AfterSsl(env, HelloAt(a)) == Some(HelloAt(a));
  }

  /** The packet a client sends first, if it sends any. */
  function First(h: Hello, closes: bool): Received<FrontendMsg> {
    if h.script != [] then Got(h.script[0]) else if closes then Closed else Blocked
  }

  /** One more message of the client read, if there is one. */
  function Reading(a: Snapshot): Snapshot {
    if a.incoming == [] then a else a.(read := a.read + [a.incoming[0]], incoming := a.incoming[1..])
  }

  // ----- A startup message -----

  /** What the StartupMessage case does from `a`, its message read. */
  ghost predicate Logged(env: Env, setup: Setup, sid: Sid, parameters: map<string, string>, a: Snapshot, b: Snapshot,
                         c: Course) {
    var x := Attempt(a.incoming, a.client, a.rest.closes, a.rest.tempIncoming, a.rest.temp, a.rest.tempCloses);
    var user := Param(parameters, "user");
    && b.conn == a.conn && b.rest.packet == a.rest.packet && c.ssl == 0 && !c.r.FellThrough?
    && b.delivered == a.delivered + c.sent && b.read + b.incoming == a.read + a.incoming
    && b.rest.tempRead == a.rest.tempRead + c.got && c.got + b.rest.tempIncoming == a.rest.tempIncoming
    && (c.r.Entered? ==>
         && c.r.layer == a.conn && Opening(c.r, c.opening) && c.opening[0] == StartupMessage(parameters)
         && b.read == a.read + c.opening[1..])
    && (GotReady(c.got) ==> c.got == UpToReady(a.rest.tempIncoming))
    && (GotReady(c.got) <==> Succeeds(x, user, setup)) && (c.r.StartHangs? <==> Waits(x, user, setup))
    && AskedAs(x, user, parameters, setup, c.got, b.rest.tempDelivered)
    && LeavesSession(env, sid, parameters, c.r, c.got, a.client, a.rest, b.rest)
  }

  /** The authentication alone. */
  ghost predicate Authenticated(setup: Setup, user: string, parameters: map<string, string>, a: Snapshot, b: Snapshot,
                                auth: Result, got: seq<BackendMsg>, sent: seq<BackendMsg>) {
    var x := Attempt(a.incoming, a.client, a.rest.closes, a.rest.tempIncoming, a.rest.temp, a.rest.tempCloses);
    && b.conn == a.conn && b.delivered == a.delivered + sent && b.read + b.incoming == a.read + a.incoming
    && b.rest == a.rest.(tempRead := a.rest.tempRead + got, tempIncoming := b.rest.tempIncoming,
                         tempDelivered := b.rest.tempDelivered, temp := b.rest.temp)
    && got + b.rest.tempIncoming == a.rest.tempIncoming
    && Meaning(auth, got, sent)
    && (GotReady(got) ==> got == UpToReady(a.rest.tempIncoming) && b.client == Later(a.client, |sent|))
    && (GotReady(got) ==> exists password :: b.read == a.read + [PasswordMessage(password)])
    && (GotReady(got) <==> Succeeds(x, user, setup)) && (auth.Hangs? <==> Waits(x, user, setup))
    && AskedAs(x, user, parameters, setup, got, b.rest.tempDelivered)
  }

  ghost function Authentications(setup: Setup, user: string, parameters: map<string, string>, a: Snapshot)
    : iset<(Snapshot, Result, seq<BackendMsg>, seq<BackendMsg>)>
  {
    iset w: (Snapshot, Result, seq<BackendMsg>, seq<BackendMsg>) |
      Authenticated(setup, user, parameters, a, w.0, w.1, w.2, w.3)
  }

  /** What follows it: a connection of the pool taken, its key published, if all that works. */
  ghost predicate Opened(env: Env, sid: Sid, pool: A.PoolKey, auth: Result, a: Snapshot, b: Snapshot, r: Started,
                         more: seq<BackendMsg>) {
    && b == a.(delivered := a.delivered + more, client := b.client,
               rest := a.rest.(pool := b.rest.pool, entries := b.rest.entries, acts := b.rest.acts))
    && !r.FellThrough? && (r.StartHangs? <==> auth.Hangs?)
    && (r.Entered? <==> auth.Ok? && Opens(env, a.client, a.rest.pool))
    && (r.Entered? ==>
         r.layer == a.conn && b.rest.acts == a.rest.acts + [A.AuthDone(auth.temp)] + PinningActs(env, pool))
    && b.rest.entries == EntriesAfter(env, sid, r, a.rest.entries)
    && b.rest.pool == (if auth.Ok? && env.pool.Gives? then Exec(a.rest.pool, Ping, env.pool.pingIo).0 else a.rest.pool)
  }

  ghost function Openings(env: Env, sid: Sid, pool: A.PoolKey, auth: Result, a: Snapshot)
    : iset<(Snapshot, Started, seq<BackendMsg>)>
  {
    iset w: (Snapshot, Started, seq<BackendMsg>) | Opened(env, sid, pool, auth, a, w.0, w.1, w.2)
  }

  lemma OpeningIsLogin(env: Env, setup: Setup, sid: Sid, parameters: map<string, string>, a: Snapshot, mid: Snapshot,
                       b: Snapshot, auth: Result, got: seq<BackendMsg>, sent: seq<BackendMsg>, r: Started,
                         more: seq<BackendMsg>)
    returns (c: Course)
    requires (mid, auth, got, sent) in Authentications(setup, Param(parameters, "user"), parameters, a)
    requires (b, r, more) in
      Openings(env, sid, A.PoolKey(Param(parameters, "user"), Param(parameters, "database")), auth, mid)
    ensures c == Course(r, 0, got, sent + more, c.opening) && (b, c) in Logins(env, setup, sid, parameters, a)
  {
    Grouped(a.delivered, sent, more);
    c := Course(r, 0, got, sent + more, []);
    if r.Entered? {
      var password :| mid.read == a.read + [PasswordMessage(password)];
      c := c.(opening := [StartupMessage(parameters), PasswordMessage(password)]);
      Grouped(mid.rest.acts, [A.AuthDone(auth.temp)],
              PinningActs(env, A.PoolKey(Param(parameters, "user"), Param(parameters, "database"))));
    }
    assert LeavesSession(env, sid, parameters, r, got, a.client, a.rest, b.rest);
    assert Logged(env, setup, sid, parameters, a, b, c);
  }

  ghost function Logins(env: Env, setup: Setup, sid: Sid, parameters: map<string, string>,
                        a: Snapshot): iset<(Snapshot, Course)> {
    iset w: (Snapshot, Course) | Logged(env, setup, sid, parameters, a, w.0, w.1)
  }

  lemma LoginIsStartup(env: Env, setup: Setup, sid: Sid, parameters: map<string, string>, a: Snapshot, b: Snapshot,
                       c: Course)
    requires a.incoming != [] && a.incoming[0] == StartupMessage(parameters)
    requires (b, c) in Logins(env, setup, sid, parameters, Reading(a))
    ensures (b, c) in Startups(env, setup, sid, a)
  {
    var h, mid := Some(HelloAt(a)), Reading(a);
    assert AttemptOf(h, a.rest) ==
      Attempt(mid.incoming, mid.client, mid.rest.closes, mid.rest.tempIncoming, mid.rest.temp, mid.rest.tempCloses);
    assert Starts(h) && ParametersOf(h) == parameters;
    assert EndsBy(h, a.rest, b, env, setup, c);
    assert Leaves(h, a.rest, b.rest, env, setup, sid, c);
    StartupWithoutSsl(env, setup, sid, a, mid, b, Got(a.incoming[0]), c);
  }

  /** What any other packet than an SSL request or a startup message comes to. */
  function Declined(packet: Received<FrontendMsg>, layer: nat): Started {
    if packet.Blocked? then StartHangs else if packet == Got(GSSEncRequest) then FellThrough(layer) else StartFailed
  }

  lemma OtherIsStartup(env: Env, setup: Setup, sid: Sid, a: Snapshot, b: Snapshot, packet: Received<FrontendMsg>,
                       r: Started)
    requires packet == First(HelloAt(a), a.rest.closes) != Got(SSLRequest)
    requires packet.Got? ==> !packet.msg.StartupMessage?
    requires b == Reading(a).(rest := a.rest.(acts := b.rest.acts, packet := b.rest.packet))
    requires r == Declined(packet, a.conn)
    requires if packet.Got? && packet.msg.CancelRequest? then Cancelled(env, packet.msg.target, a.rest, b.rest)
             else b.rest.packet == a.rest.packet
    ensures (b, Course(r, 0, [], [], if r.FellThrough? then [GSSEncRequest] else [])) in Startups(env, setup, sid, a)
  {
    var h, mid := Some(HelloAt(a)), Reading(a);
    var c := Course(r, 0, [], [], if r.FellThrough? then [GSSEncRequest] else []);
    assert b.delivered == mid.delivered + [] && b.rest.tempRead == mid.rest.tempRead + [];
    assert [] + b.rest.tempIncoming == mid.rest.tempIncoming && mid.read + [] == mid.read;
    assert EndsBy(h, a.rest, b, env, setup, c);
    assert Leaves(h, a.rest, b.rest, env, setup, sid, c);
    StartupWithoutSsl(env, setup, sid, a, mid, b, packet, c);
  }

  /** The inputs on which a session follows a nil pointer: after its SSL requests a client sends a
      GSSENCRequest and anything more, or its login gets to a ReadyForQuery with no key before it. */
  ghost predicate CrashesOn(env: Env, a: Snapshot, setup: Setup) {
    var h := AfterSsl(env, HelloAt(a));
    || (FallsThrough(h) && |h.value.script| > 1)
    || (GetsIn(h, a.rest, setup) && BackendAuth.LastKey(UpToReady(a.rest.tempIncoming)).None?)
  }

  /** The inputs on which it waits for ever before its query loop. */
  ghost predicate HangsOn(env: Env, a: Snapshot, setup: Setup) {
    var h := AfterSsl(env, HelloAt(a));
    Hangs(h, a.rest, setup) || (FallsThrough(h) && |h.value.script| == 1 && !a.rest.closes)
  }

  /** The session has logged in, taken a connection of the pool named by its own startup message, pinned it and
      registered under its key; the login was asked for in the name the startup message gives, or, for a token, in
      the name of the account it maps to. */
  ghost predicate OnItsOwn(env: Env, a: Rest, b: Rest, c: Course) {
    && |c.opening| == 2 && c.opening[0].StartupMessage? && c.opening[1].PasswordMessage? && env.pool.Gives?
    && var parameters, password, k := c.opening[0].parameters, c.opening[1].password, env.pool.conn.key;
       var user := if "user" in parameters then parameters["user"] else "";
       var database := if "database" in parameters then parameters["database"] else "";
       && LoggedIn(c.got)
       && b.acts == a.acts + [A.AuthDone(BackendAuth.LastKey(c.got).value),
                              A.Acquire(A.PoolKey(user, database), k, env.pool.isNew), A.Pin(k), A.Register(k)]
       && (b.tempDelivered != [] ==> exists who: BackendAuth.Credentials ::
            && b.tempDelivered[0] == StartupMessage(parameters["user" := who.username])
            && (!LooksLikeToken(password) ==> who == BackendAuth.Credentials(user, password)))
  }

  lemma EnteredOnItsOwn(env: Env, setup: Setup, sid: Sid, a: Snapshot, b: Snapshot, c: Course)
    requires (b, c) in Startups(env, setup, sid, a) && c.r.Entered?
    ensures OnItsOwn(env, a.rest, b.rest, c)
  {
    assert Negotiated(a, b, env.tls, c) && Decided(a, b, env, setup, sid, c);
    var h := AfterSsl(env, HelloAt(a));
    OpeningIsNext(env, a, b, c);
    var x, user := AttemptOf(h, a.rest), Param(ParametersOf(h), "user");
    assert AskedAs(x, user, ParametersOf(h), setup, c.got, b.rest.tempDelivered);
    if b.rest.tempDelivered != [] {
      var who :| Applies(x, user, setup, who)
                 && SentAs(who, ParametersOf(h), setup.crypto, c.got, b.rest.tempDelivered);
      assert x.script[0] == c.opening[1];
    }
  }

  /** The messages that decided a startup are those behind its SSL requests. */
  lemma OpeningIsNext(env: Env, a: Snapshot, b: Snapshot, c: Course)
    requires Negotiated(a, b, env.tls, c) && c.r.Entered? && AfterSsl(env, HelloAt(a)).Some?
    ensures AfterSsl(env, HelloAt(a)).value.script == c.opening + b.incoming
  {
    var rest := c.opening + b.incoming;
    assert a.read + (Repeat(SSLRequest, c.ssl) + c.opening + b.incoming) == a.read + a.incoming;
    assert a.incoming == (a.read + a.incoming)[|a.read|..] == Repeat(SSLRequest, c.ssl) + rest;
    AfterSslMeans(env, HelloAt(a));
    LeadingSslOf(c.ssl, rest);
    RepeatHas(SSLRequest, c.ssl);
  }

  lemma {:induction false} RepeatHas<T>(x: T, n: nat)
    ensures |Repeat(x, n)| == n && forall i :: 0 <= i < n ==> Repeat(x, n)[i] == x
  {
    if n > 0 {
      RepeatHas(x, n - 1);
    }
  }

  /** When nothing fails, a client that asks for TLS any number of times, starts up and gives its password enters
      the query loop of a backend that keeps to the protocol, if the library can follow it. */
  lemma OrdinaryStartupEnters(env: Env, setup: Setup, sid: Sid, a: Snapshot, b: Snapshot, c: Course, n: nat,
                              parameters: map<string, string>, password: string, rest: seq<FrontendMsg>)
    requires (b, c) in Startups(env, setup, sid, a)
    requires a.incoming == Repeat(SSLRequest, n) + ([StartupMessage(parameters), PasswordMessage(password)] + rest)
    requires setup.dialled && !LooksLikeToken(password) && forall i :: env.handshake(i)
    requires forall i :: a.client.ok(i) && a.rest.temp.ok(i)
    requires var user := if "user" in parameters then parameters["user"] else "";
             Followed(setup.crypto, BackendAuth.Credentials(user, password), a.rest.tempIncoming)
    requires env.pool.Gives? && a.rest.pool == NEW && !env.pool.pingIo
    ensures c.r.Entered?
  {
    AfterOrdinarySsl(env, a, n, [StartupMessage(parameters), PasswordMessage(password)] + rest);
    var h, user := AfterSsl(env, HelloAt(a)), Param(parameters, "user");
    OrdinaryLogin(AttemptOf(h, a.rest), user, password, setup);
    assert EndsBy(h, a.rest, b, env, setup, c);
    FollowedHasKey(setup.crypto, BackendAuth.Credentials(user, password), a.rest.tempIncoming);
    NewAnswersPing();
  }

  lemma AfterOrdinarySsl(env: Env, a: Snapshot, n: nat, opening: seq<FrontendMsg>)
    requires a.incoming == Repeat(SSLRequest, n) + opening && opening != [] && !opening[0].SSLRequest?
    requires forall i :: env.handshake(i)
    requires forall i :: a.client.ok(i)
    ensures var h := AfterSsl(env, HelloAt(a));
      h.Some? && h.value.script == opening && forall i :: h.value.client.ok(i)
  {
    AfterSslMeans(env, HelloAt(a));
    LeadingSslOf(n, opening);
    RepeatHas(SSLRequest, n);
  }

  lemma OrdinaryLogin(x: Attempt, user: string, password: string, setup: Setup)
    requires x.script != [] && x.script[0] == PasswordMessage(password)
    requires setup.dialled && !LooksLikeToken(password)
    requires forall i :: x.client.ok(i) && x.temp.ok(i)
    requires Followed(setup.crypto, BackendAuth.Credentials(user, password), x.tempScript)
    ensures Succeeds(x, user, setup)
  {
    var who := BackendAuth.Credentials(user, password);
    BackendAuth.ConformingLogsIn(setup.crypto, who, x.tempScript, Later(x.client, 1), Later(x.temp, 1));
    assert Applies(x, user, setup, who);
  }

  lemma FollowedHasKey(crypto: BackendAuth.Crypto, who: BackendAuth.Credentials, script: seq<BackendMsg>)
    requires Followed(crypto, who, script)
    ensures BackendAuth.LastKey(UpToReady(script)).Some?
  {
    BackendAuth.ConformingIsAccepted(script);
    UpToReadyAt(script, |script| - 1);
    assert script[..|script|] == script;
    BackendAuth.ConformingBackend(script);
  }

  /** A backend that keeps to the protocol, and a library that can take each of its SASL messages. */
  ghost predicate Followed(crypto: BackendAuth.Crypto, who: BackendAuth.Credentials, script: seq<BackendMsg>) {
    && BackendAuth.Conforming(script)
    && (forall i :: 0 <= i < |script| && script[i].AuthenticationSASL? ==>
         "SCRAM-SHA-256" in script[i].mechanisms && BackendAuth.Begun(crypto, who).Some?)
    && (forall i ::
         0 <= i < |script| && (script[i].AuthenticationSASLContinue? || script[i].AuthenticationSASLFinal?) ==>
           && BackendAuth.Talk(crypto, who, script[..i]).Some?
           && crypto.step(BackendAuth.Talk(crypto, who, script[..i]).value, script[i].data).Some?)
  }

  lemma NewAnswersPing()
    ensures Exec(NEW, Ping, false).1
  {
    ExecKeepsReadyReplies(NEW, Ping);
  }

  // ----- What a client is sent before the query loop -----

  /** Of the keys, only the pooled connection's: the authentication leg's key and its ReadyForQuery do
      not reach the client, whatever the backend sends and wherever the startup breaks off. */
  lemma OnlyThePinnedKeyIsSent(got: seq<BackendMsg>, pool: PoolAnswer, sent: seq<BackendMsg>)
    requires CutShort(sent, Welcome(got, pool))
    ensures forall i :: 0 <= i < |sent| && sent[i].BackendKeyData? ==>
      LoggedIn(got) && pool.Gives? && sent[i].key == pool.conn.key && i == |Greeting(got)|
    ensures forall i :: 0 <= i < |sent| && sent[i].ReadyForQuery? ==>
      LoggedIn(got) && pool.Gives? && Welcome(got, pool) <= sent && i == |Welcome(got, pool)| - 1 && sent[i].tx.Idle?
  {
    WelcomeHasOneKey(got, pool);
    var n: nat, e :| CutAt(sent, Welcome(got, pool), n, e);
    BeforeTheCut(sent, Welcome(got, pool), n, e);
  }

  lemma BeforeTheCut(sent: seq<BackendMsg>, whole: seq<BackendMsg>, n: nat, e: seq<BackendMsg>)
    requires CutAt(sent, whole, n, e)
    ensures forall i :: 0 <= i < |sent| && !sent[i].ErrorResponse? ==> i < n && sent[i] == whole[i]
    ensures n == |whole| ==> whole <= sent
  {
    assert forall i :: n <= i < |sent| ==> sent[i] == e[i - n] && e[i - n] in e;
    assert forall i :: 0 <= i < n ==> sent[i] == whole[i];
  }

  lemma WelcomeHasOneKey(got: seq<BackendMsg>, pool: PoolAnswer)
    ensures var whole := Welcome(got, pool);
      && (forall i :: 0 <= i < |Greeting(got)| ==> !whole[i].BackendKeyData? && !whole[i].ReadyForQuery?)
      && |whole| == |Greeting(got)| + (if LoggedIn(got) && pool.Gives? then 2 else 0)
      && whole[|Greeting(got)|..] == if LoggedIn(got) then Published(pool) else []
  {
    BackendAuth.OnlyTheseReachTheClient(NoError(got));
    forall j | 1 <= j < |Greeting(got)| ensures BackendAuth.Passes(Greeting(got)[j]) {
      assert Greeting(got)[j] == BackendAuth.Forwarded(NoError(got))[j - 1];
    }
  }

  /** What a client may be sent by a proxy whose backend keeps to the protocol. */
  function Grammar(parameters: seq<BackendMsg>, pool: PoolAnswer): seq<BackendMsg> {
    [AuthenticationCleartextPassword, AuthenticationOk] + parameters + Published(pool)
  }

  /** A beginning of it, then at most one error. */
  ghost predicate InGrammar(sent: seq<BackendMsg>, pool: PoolAnswer) {
    exists parameters :: AllParameters(parameters) && CutShort(sent, Grammar(parameters, pool))
  }

  ghost predicate AllParameters(parameters: seq<BackendMsg>) {
    forall m :: m in parameters ==> m.ParameterStatus?
  }

  lemma WelcomeOfConforming(whole: seq<BackendMsg>, pool: PoolAnswer) returns (parameters: seq<BackendMsg>)
    requires BackendAuth.Conforming(whole)
    ensures AllParameters(parameters) && Welcome(whole, pool) == Grammar(parameters, pool)
    ensures LoggedIn(whole) && Greeting(whole) == [AuthenticationCleartextPassword] + BackendAuth.Forwarded(whole)
  {
    BackendAuth.ConformingBackend(whole);
    var forwarded := BackendAuth.Forwarded(whole);
    parameters := forwarded[1..];
    assert forwarded == [AuthenticationOk] + parameters;
    Grouped([AuthenticationCleartextPassword], [AuthenticationOk], parameters);
    assert [AuthenticationCleartextPassword] + [AuthenticationOk] ==
      [AuthenticationCleartextPassword, AuthenticationOk];
  }

  /** With such a backend, at whatever point it stops or sends an error, and wherever the startup breaks
      off, a client was sent a beginning of: the request for a password, AuthenticationOk, parameters,
      its key, ReadyForQuery; then at most one error; and nothing after it. */
  lemma StartupGrammar(got: seq<BackendMsg>, pool: PoolAnswer, sent: seq<BackendMsg>)
    requires BackendAuth.ConformingSoFar(got) && CutShort(sent, Welcome(got, pool))
    ensures InGrammar(sent, pool)
  {
    var whole :| BackendAuth.Conforming(whole) && BackendAuth.SaysPartOf(got, whole);
    var parameters := WelcomeOfConforming(whole, pool);
    if LoggedIn(got) {
      BackendAuth.ReadyIsTheEnd(got, whole);
    } else {
      BackendAuth.ForwardedPrefix(NoError(got), whole);
      PrefixOfSum([AuthenticationCleartextPassword], BackendAuth.Forwarded(NoError(got)), BackendAuth.Forwarded(whole));
      assert Welcome(got, pool) == Greeting(got) <= Greeting(whole) <= Welcome(whole, pool);
    }
    CutShortLonger(sent, Welcome(got, pool), Welcome(whole, pool));
  }

  lemma PrefixOfSum<T>(a: seq<T>, b: seq<T>, c: seq<T>)
    requires b <= c
    ensures a + b <= a + c
  {
  }

  /** And a session that reaches the query loop was sent all of it. */
  lemma WelcomeGrammar(got: seq<BackendMsg>, pool: PoolAnswer)
    requires BackendAuth.ConformingSoFar(got) && LoggedIn(got)
    ensures exists parameters :: AllParameters(parameters) && Welcome(got, pool) == Grammar(parameters, pool)
  {
    var whole :| BackendAuth.Conforming(whole) && BackendAuth.SaysPartOf(got, whole);
    BackendAuth.ReadyIsTheEnd(got, whole);
    var parameters := WelcomeOfConforming(whole, pool);
  }

  /** What is true of every startup, from its first packet to its end. */
  ghost predicate WellStarted(env: Env, setup: Setup, sid: Sid, a: Snapshot, at: Snapshot, c: Course) {
    && (at, c) in Startups(env, setup, sid, a) && CutShort(c.sent, Welcome(c.got, env.pool))
    && (c.r.Entered? ==> LoggedIn(c.got) && c.sent == Welcome(c.got, env.pool) && env.pool.Gives?)
    && (BackendAuth.ConformingSoFar(a.rest.tempIncoming) ==> InGrammar(c.sent, env.pool))
    && (c.r.Entered? ==> OnItsOwn(env, a.rest, at.rest, c))
  }

  lemma StartsWell(env: Env, setup: Setup, sid: Sid, a: Snapshot, at: Snapshot, c: Course)
    requires (at, c) in Startups(env, setup, sid, a) && CutShort(c.sent, Welcome(c.got, env.pool))
    requires c.r.Entered? ==> LoggedIn(c.got) && c.sent == Welcome(c.got, env.pool) && env.pool.Gives?
    ensures WellStarted(env, setup, sid, a, at, c)
  {
    if BackendAuth.ConformingSoFar(a.rest.tempIncoming) {
      assert Negotiated(a, at, env.tls, c);
      BackendAuth.PartOfPart(c.got, a.rest.tempIncoming);
      StartupGrammar(c.got, env.pool, c.sent);
    }
    if c.r.Entered? {
      EnteredOnItsOwn(env, setup, sid, a, at, c);
    }
  }

  /** A backend that keeps to the protocol does not make the session crash. */
  lemma ConformingBackendHasKey(got: seq<BackendMsg>)
    requires BackendAuth.ConformingSoFar(got)
    ensures !ReadyWithoutKey(got)
  {
    if GotReady(got) {
      var whole :| BackendAuth.Conforming(whole) && BackendAuth.SaysPartOf(got, whole);
      BackendAuth.ReadyIsTheEnd(got, whole);
      BackendAuth.ConformingBackend(whole);
    }
  }
}
