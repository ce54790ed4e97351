/** One client connection from accept to cleanup: handleConnection, connectBackend and cancelRequest of
    internal/proxy/connection.go, handleStartupMessage of internal/proxy/startup.go and
    AcquireConnection of internal/pool/manager.go. Every externally visible step is recorded, and the
    record follows the session automaton that module ProxySystem runs many copies of. */
module Connection {
  import opened Options
  import opened CancelKeys
  import opened PooledBackend
  import opened Wire
  import opened Authenticator
  import opened Startup
  import Relay
  import LoopSteps
  import R = Roles
  import A = SessionAutomaton

  datatype Finish = Ended | Hung | Crashed

  datatype Ends = Both(
    read: seq<FrontendMsg>, incoming: seq<FrontendMsg>, delivered: seq<BackendMsg>, client: Sender,
    poolRead: seq<BackendMsg>, poolIncoming: seq<BackendMsg>, poolSent: seq<FrontendMsg>, pool: Sender)

  const NO_SENDS := Sender(n => true, 0)

  class Connection {
    const sid: Sid
    const client: ClientWire
    const temp: BackendWire
    const server: Server
    const mapper: R.RoleMapper
    const env: Env
    var conn: nat                  // how many layers of TLS the client connection has
    var key: Option<Key>
    var poolConn: PooledConn?
    var bf: Wire?<BackendMsg, FrontendMsg>
    var cancelPacket: seq<bv8>     // what cancelRequest wrote
    ghost var session: A.Session
    ghost var acts: seq<A.Act>

    constructor (sid: Sid, client: ClientWire, temp: BackendWire, server: Server, mapper: R.RoleMapper, env: Env)
      requires server.Valid()
      ensures this.sid == sid && this.client == client && this.temp == temp && this.server == server
      ensures this.mapper == mapper && this.env == env
      ensures Valid() && session == A.STARTED && acts == [] && conn == 0 && cancelPacket == []
    {
      this.sid, this.client, this.temp, this.server, this.mapper, this.env := sid, client, temp, server, mapper, env;
      conn, key, poolConn, bf, cancelPacket := 0, None, null, null, [];
      session, acts := A.STARTED, [];
    }

    ghost predicate Valid()
      reads this, server
    {
      && server.Valid()
      && A.Follows(A.STARTED, acts, session) && A.WellFormed(session)
      && session.key == key
      && session.poolConn == (if poolConn == null then None else Some(poolConn.key))
      && (poolConn != null ==> env.pool.Gives? && poolConn == env.pool.conn)
    }

    /** What this session does not share. */
    ghost predicate Apart()
      reads {}
    {
      && (forall h :: client.react(h) == []) && (forall h :: temp.react(h) == [])
      && (env.pool.Gives? ==> env.pool.wire != temp)
    }

    ghost method Act(a: A.Act)
      requires A.Follows(A.STARTED, acts, session) && A.WellFormed(session) && A.Enabled(session, a)
      modifies this`session, this`acts
      ensures session == A.Next(old(session), a) && acts == old(acts) + [a]
      ensures A.Follows(A.STARTED, acts, session) && A.WellFormed(session)
    {
      var next := A.Next(session, a);
      assert [a][1..] == [];
      A.FollowsAppend(A.STARTED, acts, session, [a], next);
      acts, session := acts + [a], next;
    }

    /** pool.AcquireConnection: a connection that does not answer the ping is released again. */
    method AcquireConnection(pool: A.PoolKey) returns (got: bool)
      requires Valid() && session.phase.Connecting?
      modifies this`session, this`acts, if env.pool.Gives? then {env.pool.conn} else {}
      ensures Valid()
      ensures env.pool.Gives? ==>
        (env.pool.conn.backend, got) == Exec(old(env.pool.conn.backend), Ping, env.pool.pingIo)
      ensures acts == old(acts) + AcquireActs(pool, got)
      ensures got ==>
        env.pool.Gives? && session == old(session).(phase := A.Pinging, checking := Some(env.pool.conn.key))
      ensures !got ==> session == old(session).(phase := A.Closing)
    {
      if env.pool.NoConnection? {
        Act(A.ConnectFail);
        return false;
      }
      var c := env.pool.conn;
      Act(A.Acquire(pool, c.key, env.pool.isNew));
      got := c.ExecCommand(Ping, env.pool.pingIo);
      if !got {
        Act(A.PingFail(c.key, env.pool.pingDestroys));
      }
    }

    ghost function AcquireActs(pool: A.PoolKey, got: bool): seq<A.Act> {
      if env.pool.NoConnection? then [A.ConnectFail]
      else
        [A.Acquire(pool, env.pool.conn.key, env.pool.isNew)] +
        if got then [] else [A.PingFail(env.pool.conn.key, env.pool.pingDestroys)]
    }

    /** The objects a session changes before its query loop. */
    ghost function Frame(): set<object>
    {
      {this, client, temp, server} + if env.pool.Gives? then {env.pool.conn} else {}
    }

    /** Publishing: the pinned connection's key and ReadyForQuery to the client, then the registry. */
    method Publish() returns (ok: bool, ghost sent: seq<BackendMsg>)
      requires Valid() && Apart() && session.phase.Publishing? && key.Some?
      modifies this`session, this`acts, client, server
      ensures Valid() && client.delivered == old(client.delivered) + sent
      ensures client.read == old(client.read) && client.incoming == old(client.incoming)
      ensures ok <==> Delivers(old(client.Sending()), 2)
      ensures ok ==>
        && sent == [BackendKeyData(key.value), ReadyForQuery(Idle)]
        && session == old(session).(phase := A.Looping) && acts == old(acts) + [A.Register(key.value)]
        && server.entries == old(server.entries)[key.value := sid]
      ensures !ok ==>
        && sent <= [BackendKeyData(key.value)]
        && session == old(session).(phase := A.Closing) && server.entries == old(server.entries)
    {
      sent := [];
      ok := client.Send(BackendKeyData(key.value));
      if ok {
        sent := [BackendKeyData(key.value)];
        ok := client.Send(ReadyForQuery(Idle));
      }
      if !ok {
        Act(A.PublishFail);
        return;
      }
      sent := [BackendKeyData(key.value), ReadyForQuery(Idle)];
      server.RegisterConnection(key.value, sid);
      Act(A.Register(key.value));
    }

    /** The session has its pooled connection, has told the client that connection's key, and is
        registered under it. */
    ghost predicate Serving()
      reads this
    {
      && session.phase.Looping? && env.pool.Gives?
      && poolConn == env.pool.conn && bf == env.pool.wire && key == Some(env.pool.conn.key)
    }

    /** Where each end of the startup leaves the session. */
    ghost predicate Stage(r: Started)
      reads this
    {
      if r.Entered? then Serving() else if r.StartFailed? then session.phase.Closing? else session == A.STARTED
    }

    /** What each end of the startup means, given what the temporary connection's backend said and
        what the client was sent. */
    ghost predicate Outcome(r: Started, got: seq<BackendMsg>, sent: seq<BackendMsg>)
      reads this
    {
      && Stage(r) && (r.Crashes? <==> ReadyWithoutKey(got))
      && match r
         case Entered(_) => LoggedIn(got) && sent == Welcome(got, env.pool)
         case FellThrough(_) => sent == [] && got == []
         case StartFailed => CutShort(sent, Welcome(got, env.pool))
         case StartHangs => !GotReady(got) && (sent == [] || sent == Greeting(got))
         case Crashes => sent == Greeting(got)
    }

    ghost function Setup(): Setup
      reads mapper
    {
      Authenticator.Setup(env.dialled, env.tokens, env.crypto, mapper.roleToAccount, mapper.defaultRole)
    }

    /** The connection the pool would give. */
    ghost function PoolBackend(): Backend
      reads if env.pool.Gives? then {env.pool.conn} else {}
    {
      if env.pool.Gives? then env.pool.conn.backend else NEW
    }

    ghost function Others(): Rest
      reads this, server, temp, if env.pool.Gives? then {env.pool.conn} else {}
    {
      Rest(temp.read, temp.incoming, temp.delivered, temp.Sending(), client.closes, temp.closes,
           PoolBackend(), server.entries, acts, cancelPacket)
    }

    ghost function Here(): Snapshot
      reads this, client, server, temp, if env.pool.Gives? then {env.pool.conn} else {}
    {
      Snapshot(client.read, client.incoming, client.delivered, client.Sending(), conn, Others())
    }

    /** The StartupMessage case of handleStartupMessage. */
    method StartSession(parameters: map<string, string>, layer: nat, ghost setup: Setup)
      returns (r: Started, ghost c: Course)
      requires Valid() && Apart() && session == A.STARTED && temp.delivered == [] && layer == conn && setup == Setup()
      modifies Frame()
      ensures Valid() && c.r == r && Outcome(r, c.got, c.sent)
      ensures (Here(), c) in Logins(env, setup, sid, parameters, old(Here()))
    {
      ghost var start := Here();
      var user, database := Param(parameters, "user"), Param(parameters, "database");
      var auth;
      ghost var got, sent, more;
      auth, got, sent := Authenticate(user, parameters, setup);
      ghost var mid := Here();
      r, more := AfterAuthentication(auth, A.PoolKey(user, database), layer, got, sent);
      c := OpeningIsLogin(env, setup, sid, parameters, start, mid, Here(), auth, got, sent, r, more);
    }

    /** The call of AuthenticateUser. */
    method Authenticate(user: string, parameters: map<string, string>, ghost setup: Setup)
      returns (auth: Result, ghost got: seq<BackendMsg>, ghost sent: seq<BackendMsg>)
      requires Apart() && temp.delivered == [] && setup == Setup()
      modifies client, temp
      ensures (Here(), auth, got, sent) in Authentications(setup, user, parameters, old(Here()))
      ensures Meaning(auth, got, sent)
    {
      ghost var start := Here();
      auth, got, sent := AuthenticateUser(user, parameters, env.dialled, client, temp, env.tokens, env.crypto, mapper);
      assert Authenticated(setup, user, parameters, start, Here(), auth, got, sent);
    }

    method AfterAuthentication(auth: Result, pool: A.PoolKey, layer: nat, ghost got: seq<BackendMsg>,
                               ghost sent: seq<BackendMsg>)
      returns (r: Started, ghost more: seq<BackendMsg>)
      requires Valid() && Apart() && session == A.STARTED && layer == conn
      requires Meaning(auth, got, sent)
      modifies this, client, server, if env.pool.Gives? then {env.pool.conn} else {}
      ensures Valid() && Outcome(r, got, sent + more)
      ensures (Here(), r, more) in Openings(env, sid, pool, auth, old(Here()))
    {
      ghost var start := Here();
      if auth.Ok? {
        r, more := OpenSession(auth.temp, pool, layer);
        if r.StartFailed? {
          FailedAfterGreeting(got, more);
        }
      } else {
        more := [];
        assert sent + [] == sent && start.delivered + [] == start.delivered;
        r := if auth.Hangs? then StartHangs else if auth.Crash? then Crashes else StartFailed;
        if auth.Denied? {
          CutShortLonger(sent, Greeting(got), Welcome(got, env.pool));
          Act(A.StartupFail);
        }
      }
      assert Opened(env, sid, pool, auth, start, Here(), r, more);
    }

    /** What a login with a key goes on to. */
    method OpenSession(temp: Key, pool: A.PoolKey, layer: nat) returns (r: Started, ghost more: seq<BackendMsg>)
      requires Valid() && Apart() && session == A.STARTED && layer == conn
      modifies this, client, server, if env.pool.Gives? then {env.pool.conn} else {}
      ensures Valid() && (if r.Entered? then Serving() && more == Published(env.pool) else session.phase.Closing?)
      ensures r.Entered? || r.StartFailed?
      ensures r.StartFailed? ==>
        || (more == [] || (|more| == 1 && more[0].ErrorResponse?))
        || (env.pool.Gives? && more <= [BackendKeyData(env.pool.conn.key)])
      ensures (Here(), r, more) in Openings(env, sid, pool, Ok(temp), old(Here()))
    {
      ghost var start := Here();
      key := Some(temp);
      Act(A.AuthDone(temp));
      r, more := ConnectAndPublish(pool, layer);
      assert Opened(env, sid, pool, Ok(temp), start, Here(), r, more);
    }

    lemma FailedAfterGreeting(got: seq<BackendMsg>, more: seq<BackendMsg>)
      requires LoggedIn(got)
      requires (more == [] || (|more| == 1 && more[0].ErrorResponse?))
        || (env.pool.Gives? && more <= [BackendKeyData(env.pool.conn.key)])
      ensures CutShort(Greeting(got) + more, Welcome(got, env.pool))
    {
      var whole := Welcome(got, env.pool);
      if more == [] || more[0].ErrorResponse? {
        assert CutAt(Greeting(got) + more, whole, |Greeting(got)|, more);
      } else {
        assert CutAt(Greeting(got) + more, whole, |Greeting(got)| + |more|, []);
      }
    }

    /** connectBackend and what follows it. */
    method ConnectAndPublish(pool: A.PoolKey, layer: nat) returns (r: Started, ghost sent: seq<BackendMsg>)
      requires Valid() && Apart() && session.phase.Connecting?
      modifies this, client, server, if env.pool.Gives? then {env.pool.conn} else {}
      ensures Valid() && conn == old(conn)
      ensures client.delivered == old(client.delivered) + sent
      ensures client.read == old(client.read) && client.incoming == old(client.incoming)
      ensures cancelPacket == old(cancelPacket) && (r.Entered? || r.StartFailed?)
      ensures server.entries == EntriesAfter(env, sid, r, old(server.entries))
      ensures r.Entered? <==> Opens(env, old(client.Sending()), old(PoolBackend()))
      ensures PoolBackend() ==
        if env.pool.Gives? then Exec(old(PoolBackend()), Ping, env.pool.pingIo).0 else old(PoolBackend())
      ensures r.Entered? ==> r.layer == layer && Serving() && sent == Published(env.pool)
      ensures r.Entered? ==> acts == old(acts) + PinningActs(env, pool)
      ensures r.StartFailed? ==>
        && session.phase.Closing?
        && ((sent == [] || (|sent| == 1 && sent[0].ErrorResponse?))
            || (env.pool.Gives? && sent <= [BackendKeyData(env.pool.conn.key)]))
    {
      var got := AcquireConnection(pool);
      if !got {
        sent := SendErrorToClient(client, "Database unavailable");
        return StartFailed, sent;
      }
      r, sent := PinAndPublish(layer);
    }

    method PinAndPublish(layer: nat) returns (r: Started, ghost sent: seq<BackendMsg>)
      requires Valid() && Apart() && session.phase.Pinging?
      requires env.pool.Gives? && session.checking == Some(env.pool.conn.key)
      modifies this, client, server
      ensures Valid() && conn == old(conn)
      ensures client.delivered == old(client.delivered) + sent
      ensures client.read == old(client.read) && client.incoming == old(client.incoming)
      ensures server.entries == EntriesAfter(env, sid, r, old(server.entries))
      ensures cancelPacket == old(cancelPacket) && (r == Entered(layer) || r.StartFailed?)
      ensures r.Entered? <==> Delivers(old(client.Sending()), 2)
      ensures r.Entered? ==>
        && Serving() && sent == Published(env.pool)
        && acts == old(acts) + [A.Pin(env.pool.conn.key), A.Register(env.pool.conn.key)]
      ensures r.StartFailed? ==> session.phase.Closing? && sent <= [BackendKeyData(env.pool.conn.key)]
    {
      poolConn := env.pool.conn;
      bf := env.pool.wire;
      key := Some(env.pool.conn.key);
      Act(A.Pin(env.pool.conn.key));
      var ok;
      ok, sent := Publish();
      r := if ok then Entered(layer) else StartFailed;
    }

    /** handleStartupMessage. `layer` is what the Backend it is given wraps. */
    method HandleStartupMessage(layer: nat, ghost setup: Setup) returns (r: Started, ghost c: Course)
      requires Valid() && Apart() && session == A.STARTED && temp.delivered == [] && layer == conn && setup == Setup()
      modifies Frame()
      decreases |client.incoming|, 0
      ensures Valid() && c.r == r && Outcome(r, c.got, c.sent)
      ensures (Here(), c) in Startups(env, setup, sid, old(Here()))
    {
      ghost var start := Here();
      var packet := client.Receive();
      assert Here() == Reading(start);
      if packet.Got? && packet.msg.SSLRequest? {
        r, c := HandleSslRequest(layer, start, setup);
      } else if packet.Got? && packet.msg.StartupMessage? {
        r, c := StartSession(packet.msg.parameters, layer, setup);
        LoginIsStartup(env, setup, sid, packet.msg.parameters, start, Here(), c);
      } else {
        r, c := HandleOtherPacket(packet, layer, start, setup);
      }
    }

    /** The SSLRequest case and what it goes on to; `start` is where its packet was still to be read. */
    method HandleSslRequest(layer: nat, ghost start: Snapshot, ghost setup: Setup) returns (r: Started, ghost c: Course)
      requires Valid() && Apart() && session == A.STARTED && temp.delivered == [] && layer == conn && setup == Setup()
      requires start.incoming != [] && start.incoming[0].SSLRequest? && Here() == Reading(start)
      modifies Frame()
      decreases |client.incoming|, 1
      ensures Valid() && c.r == r && Outcome(r, c.got, c.sent)
      ensures (Here(), c) in Startups(env, setup, sid, start)
    {
      var ok, layer';
      ghost var answered;
      ok, layer', answered := AnswerSsl(layer);
      if !ok {
        OutcomeNothingSent();
        StartupRefused(env, setup, sid, start, Here(), answered);
        return StartFailed, Course(StartFailed, answered, [], [], []);
      }
      ghost var mid := Here();
      r, c := HandleStartupMessage(layer', setup);
      StartupAgain(env, setup, sid, start, mid, Here(), c);
      c := c.(ssl := c.ssl + 1);
    }

    lemma OutcomeNothingSent()
      ensures forall got :: CutShort([], Welcome(got, env.pool))
    {
      forall got ensures CutShort([], Welcome(got, env.pool)) {
        assert CutAt([], Welcome(got, env.pool), 0, []);
      }
    }

    /** The other cases of the switch; `start` is where the packet was still to be read. */
    method HandleOtherPacket(packet: Received<FrontendMsg>, layer: nat, ghost start: Snapshot, ghost setup: Setup)
      returns (r: Started, ghost c: Course)
      requires Valid() && session == A.STARTED && layer == conn
      requires packet == First(HelloAt(start), client.closes) && Here() == Reading(start)
      requires packet.Got? ==> !packet.msg.SSLRequest? && !packet.msg.StartupMessage?
      modifies this`session, this`acts, this`cancelPacket
      ensures Valid() && c.r == r && Outcome(r, c.got, c.sent)
      ensures (Here(), c) in Startups(env, setup, sid, start)
    {
      OutcomeNothingSent();
      r := Decline(packet, layer);
      OtherIsStartup(env, setup, sid, start, Here(), packet, r);
      c := Course(r, 0, [], [], if r.FellThrough? then [GSSEncRequest] else []);
    }

    /** A cancel request is looked up; anything else unknown ends the startup, a GSSENCRequest apart. */
    method Decline(packet: Received<FrontendMsg>, layer: nat) returns (r: Started)
      requires Valid() && session == A.STARTED
      modifies this`session, this`acts, this`cancelPacket
      ensures Valid() && Stage(r)
      ensures r == Declined(packet, layer)
      ensures Here() == old(Here()).(rest := old(Others()).(acts := acts, packet := cancelPacket))
      ensures if packet.Got? && packet.msg.CancelRequest? then
                Cancelled(env, packet.msg.target, old(Others()), Others())
              else cancelPacket == old(cancelPacket)
    {
      r := Declined(packet, layer);
      if packet.Got? && packet.msg.CancelRequest? {
        CancelSession(packet.msg.target);
      } else if r.StartFailed? {
        Act(A.StartupFail);
      }
    }

    /** The SSLRequest case: refuses, or accepts and wraps the connection in a layer of TLS. The Backend
        the startup goes on with wraps what the client connection now is. */
    method AnswerSsl(layer: nat) returns (ok: bool, layer': nat, ghost answered: nat)
      requires Valid() && Apart() && session == A.STARTED && layer == conn
      modifies this`conn, this`session, this`acts, client
      ensures Valid() && session == if ok then A.STARTED else A.STARTED.(phase := A.Closing)
      ensures ok <==> client.sendOk(old(client.sends)) && (env.tls ==> env.handshake(old(conn)))
      ensures answered == (if client.sendOk(old(client.sends)) then 1 else 0) && (ok ==> layer' == conn)
      ensures Here() == if ok then Answered(env, old(Here())) else Refused(env, old(Here()), acts)
    {
      layer', answered := layer, 0;
      ok := client.Send(SslByte(env.tls));
      if ok {
        answered := 1;
        assert Repeat(SslByte(env.tls), 1) == [SslByte(env.tls)];
        ok := !env.tls || env.handshake(conn);
      }
      if !ok {
        Act(A.StartupFail);
        return;
      }
      if env.tls {
        conn := conn + 1;
        layer' := conn;
      }
    }

    /** The CancelRequest case: always an error to the caller, found or not. */
    method CancelSession(target: Key)
      requires Valid() && session == A.STARTED
      modifies this`session, this`acts, this`cancelPacket
      ensures Valid() && session == A.STARTED.(phase := A.Closing)
      ensures acts == old(acts) + [A.LookUp(target, Find(server.entries, target))]
      ensures if target in server.entries && env.cancelDialled then DecodeFirstPacket(cancelPacket) == Cancel(target)
              else cancelPacket == old(cancelPacket)
    {
      var found := server.GetConnectionForCancelRequest(target);
      Act(A.LookUp(target, found));
      if found.Some? && env.cancelDialled {
        var buf := CancelPacket(target);
        cancelPacket := buf[..];
      }
    }

    /** The cleanup of a session, whose reset succeeded or not. */
    ghost function CleanupActs(se: A.Session, ok: bool): seq<A.Act> {
      [A.CloseClient]
      + (if se.poolConn.None? then []
         else [A.Reset(se.poolConn.value, ok), A.Release(se.poolConn.value, env.releaseDestroys)])
      + if se.key.Some? then [A.Unregister(se.key.value)] else []
    }

    /** The session is done: to the steps so far it has added those of the cleanup, and the connection it
        had has been through the reset. */
    ghost predicate CleanedUp(before: seq<A.Act>, pool: Backend)
      reads this, if env.pool.Gives? then {env.pool.conn} else {}
    {
      && session.phase.Done?
      && acts == before +
           CleanupActs(session, session.poolConn.Some? && ResetRun(pool, env.rollbackIo, env.discardIo).1)
      && PoolBackend() == if session.poolConn.Some? then ResetRun(pool, env.rollbackIo, env.discardIo).0 else pool
    }

    /** The deferred function of handleConnection, in its order: close the client, reset, release,
        unregister. A failed reset does not keep the connection from being released. */
    method Cleanup()
      requires Valid() && session.phase.Closing?
      modifies this`session, this`acts, server, if poolConn == null then {} else {poolConn}
      ensures Valid() && key == old(key) && CleanedUp(old(acts), old(PoolBackend())) && Ends() == old(Ends())
      ensures server.entries == Without(old(server.entries), key)
    {
      Act(A.CloseClient);
      if poolConn != null {
        GiveBack();
      }
      if key.Some? {
        server.UnregisterConnection(key.value);
        Act(A.Unregister(key.value));
      }
    }

    method GiveBack()
      requires Valid() && session.phase.Resetting? && poolConn != null
      modifies this`session, this`acts, poolConn
      ensures Valid() && session == old(session).(phase := A.Unregistering)
      ensures poolConn.backend == ResetRun(old(poolConn.backend), env.rollbackIo, env.discardIo).0
      ensures acts == old(acts) +
        [A.Reset(poolConn.key, ResetRun(old(poolConn.backend), env.rollbackIo, env.discardIo).1),
         A.Release(poolConn.key, env.releaseDestroys)]
    {
      var ok := poolConn.FullResetBeforeRelease(env.rollbackIo, env.discardIo);
      Act(A.Reset(poolConn.key, ok));
      Act(A.Release(poolConn.key, env.releaseDestroys));
    }

    /** The query loop of a session that serves, its steps recorded. */
    method Serve() returns (o: Relay.Outcome, ghost s: Relay.Stretch)
      requires Valid() && Apart() && Serving()
      modifies this`session, this`acts, client, env.pool.wire
      ensures Valid() && !o.AtHead? && session == LoopSteps.After(old(session), s, o)
      ensures acts == old(acts) + LoopSteps.AllSteps(s, o, env.pool.conn.key)
      ensures Relayed(o, s, old(Ends()), Ends())
    {
      o, s := Relay.QueryLoop(client, bf);
      Record(o, s);
    }

    ghost method Record(o: Relay.Outcome, s: Relay.Stretch)
      requires Valid() && Serving() && Relay.Lockstep(s, o) && !o.AtHead?
      modifies this`session, this`acts
      ensures Valid() && session == LoopSteps.After(old(session), s, o)
      ensures acts == old(acts) + LoopSteps.AllSteps(s, o, env.pool.conn.key)
    {
      LoopSteps.StretchFollows(session, s, o, poolConn.key);
      var steps, next := LoopSteps.AllSteps(s, o, poolConn.key), LoopSteps.After(session, s, o);
      A.FollowsAppend(A.STARTED, acts, session, steps, next);
      acts, session := acts + steps, next;
    }

    /** handleConnection. The client is sent SSL replies, one per request, then what the startup sends,
        then, if it got that far, what the backend says, in lockstep. The session crashes or hangs only as
        said; in every other case it cleans up, step by step, and leaves the registry without its key. `at`
        is where the startup ends. */
    method HandleConnection()
      returns (f: Finish, ghost c: Course, ghost at: Snapshot, ghost o: Relay.Outcome, ghost s: Relay.Stretch)
      requires Valid() && Apart() && session == A.STARTED && temp.delivered == [] && conn == 0
      modifies Frame() + if env.pool.Gives? then {env.pool.wire} else {}
      ensures Valid() && WellStarted(env, old(Setup()), sid, old(Here()), at, c)
      ensures c.r.Entered? ==> key == Some(env.pool.conn.key)
      ensures (FromStartup(at, old(Ends())), Ends()) in Loops(c.r, o, s)
      ensures f.Crashed? <==> CrashesOn(env, old(Here()), old(Setup()))
      ensures f.Hung? <==> HangsOn(env, old(Here()), old(Setup())) || (c.r.Entered? && StillWaiting(o))
      ensures f.Ended? ==> CleanedUp(AfterLoop(at.rest.acts, c.r, o, s), at.rest.pool)
      ensures f.Ended? ==> server.entries == Without(old(server.entries), key)
    {
      var r;
      r, c, at := StartUp(Setup());
      OwnEntryGone(r, old(server.entries), key);
      f, o, s := LoopAndCleanUp(r);
    }

    /** What follows the startup. */
    method LoopAndCleanUp(r: Started) returns (f: Finish, ghost o: Relay.Outcome, ghost s: Relay.Stretch)
      requires Valid() && Apart() && Stage(r)
      modifies this`session, this`acts, client, server,
               if env.pool.Gives? then {env.pool.wire, env.pool.conn} else {}
      ensures Valid() && key == old(key) && (old(Ends()), Ends()) in Loops(r, o, s)
      ensures f.Crashed? <==> r.Crashes? || (r.FellThrough? && old(client.incoming) != [])
      ensures f.Hung? <==>
        || r.StartHangs? || (r.FellThrough? && old(client.incoming) == [] && !client.closes)
        || (r.Entered? && StillWaiting(o))
      ensures f.Ended? ==> CleanedUp(AfterLoop(old(acts), r, o, s), old(PoolBackend()))
      ensures f.Ended? ==> server.entries == Without(old(server.entries), key)
    {
      f, o, s := Loop(r);
      if f.Ended? {
        Cleanup();
      }
    }

    /** The query loop is in a receive that never returns. */
    predicate StillWaiting(o: Relay.Outcome) {
      o.WaitsForClient? || o.WaitsForBackend?
    }

    /** The record when the loop is left: a client that goes away after a GSSENCRequest counts as a startup
        that failed. */
    ghost function AfterLoop(before: seq<A.Act>, r: Started, o: Relay.Outcome, s: Relay.Stretch): seq<A.Act> {
      if r.Entered? && env.pool.Gives? then before + LoopSteps.AllSteps(s, o, env.pool.conn.key)
      else if r.FellThrough? then before + [A.StartupFail]
      else before
    }

    /** The call of handleStartupMessage. */
    method StartUp(ghost setup: Setup) returns (r: Started, ghost c: Course, ghost at: Snapshot)
      requires Valid() && Apart() && session == A.STARTED && temp.delivered == [] && conn == 0 && setup == Setup()
      modifies Frame()
      ensures Valid() && c.r == r && Stage(r)
      ensures at == Here() && Ends() == FromStartup(at, old(Ends()))
      ensures server.entries == EntriesAfter(env, sid, r, old(server.entries))
      ensures WellStarted(env, setup, sid, old(Here()), at, c)
      ensures r.Crashes? || (r.FellThrough? && at.incoming != []) <==> CrashesOn(env, old(Here()), setup)
      ensures r.StartHangs? || (r.FellThrough? && at.incoming == [] && !client.closes) <==>
        HangsOn(env, old(Here()), setup)
    {
      ghost var start := Here();
      r, c := HandleStartupMessage(conn, setup);
      at := Here();
      OutcomeCutShort(r, c.got, c.sent);
      EndsExactly(start, at, setup, c);
      StartsWell(env, setup, sid, start, at, c);
    }

    /** Withdrawing the key undoes publishing it. */
    lemma OwnEntryGone(r: Started, before: map<Key, Sid>, k: Option<Key>)
      requires r.Entered? && env.pool.Gives? ==> k == Some(env.pool.conn.key)
      ensures Without(EntriesAfter(env, sid, r, before), k) == Without(before, k)
    {
    }

    function Without(entries: map<Key, Sid>, k: Option<Key>): map<Key, Sid> {
      if k.Some? then entries - {k.value} else entries
    }

    /** A startup, or the first message after it, crashes or hangs exactly on these inputs. */
    lemma EndsExactly(a: Snapshot, at: Snapshot, setup: Setup, c: Course)
      requires (at, c) in Startups(env, setup, sid, a)
      requires c.r.Crashes? <==> ReadyWithoutKey(c.got)
      ensures c.r.Crashes? || (c.r.FellThrough? && at.incoming != []) <==> CrashesOn(env, a, setup)
      ensures c.r.StartHangs? || (c.r.FellThrough? && at.incoming == [] && !a.rest.closes) <==> HangsOn(env, a, setup)
    {
    }

    /** The client's end and the pooled connection's, if there is one. */
    ghost function Ends(): Ends
      reads client, if env.pool.Gives? then {env.pool.wire} else {}
    {
      if env.pool.Gives? then
        var w := env.pool.wire;
        Both(client.read, client.incoming, client.delivered, client.Sending(), w.read, w.incoming, w.delivered,
             w.Sending())
      else Both(client.read, client.incoming, client.delivered, client.Sending(), [], [], [], NO_SENDS)
    }

    /** A startup leaves the pooled connection's end alone. */
    ghost function FromStartup(at: Snapshot, before: Ends): Ends {
      before.(read := at.read, incoming := at.incoming, delivered := at.delivered, client := at.client)
    }

    /** The loop's messages, in lockstep: the client's are those that followed the startup, the pooled
        connection's are its answers, each end read from and sent to as the stretch says. */
    ghost predicate Relayed(o: Relay.Outcome, s: Relay.Stretch, a: Ends, b: Ends) {
      && Relay.Lockstep(s, o) && s.taken + s.pending == a.incoming
      && b == Both(a.read + s.taken, s.pending, a.delivered + s.relayed, b.client,
                   a.poolRead + s.received, s.unread, a.poolSent + s.forwarded, b.pool)
      && env.pool.Gives? && Relay.Accounts(env.pool.wire.react, a.poolSent, a.poolIncoming, a.incoming, s)
      && Relay.Cause(o, client.closes, b.client, env.pool.wire.closes, b.pool)
    }

    /** Every way the loop can go from some ends to others: without a pooled connection nothing is relayed,
        and at most one message read. */
    ghost function Loops(r: Started, o: Relay.Outcome, s: Relay.Stretch): iset<(Ends, Ends)> {
      iset w: (Ends, Ends) | if r.Entered? then Relayed(o, s, w.0, w.1) else Unrelayed(s, w.0, w.1)
    }

    ghost predicate Unrelayed(s: Relay.Stretch, a: Ends, b: Ends) {
      && s == Relay.Stretch([], [], [], [], [], []) && b.(read := a.read, incoming := a.incoming) == a
      && b.read + b.incoming == a.read + a.incoming
    }

    /** The endless loop of handleConnection, up to where its deferred function takes over. */
    method Loop(r: Started) returns (f: Finish, ghost o: Relay.Outcome, ghost s: Relay.Stretch)
      requires Valid() && Apart() && Stage(r)
      modifies this`session, this`acts, client, if env.pool.Gives? then {env.pool.wire} else {}
      ensures Valid() && (old(Ends()), Ends()) in Loops(r, o, s)
      ensures f.Ended? ==> session == old(session).(phase := A.Closing) && acts == AfterLoop(old(acts), r, o, s)
      ensures f.Crashed? <==> r.Crashes? || (r.FellThrough? && old(client.incoming) != [])
      ensures f.Hung? <==>
        || r.StartHangs? || (r.FellThrough? && old(client.incoming) == [] && !client.closes)
        || (r.Entered? && StillWaiting(o))
    {
      if r.Entered? {
        var why;
        why, s := Serve();
        return if StillWaiting(why) then Hung else Ended, why, s;
      }
      o, s := Relay.ClientGone, Relay.Stretch([], [], [], [], [], []);
      if r.FellThrough? {
        f := MeetNoBackend();
      } else {
        f := if r.StartHangs? then Hung else if r.Crashes? then Crashed else Ended;
      }
    }

    /** Where the startup fell through there is no pooled connection for the first message to be sent to. */
    method MeetNoBackend() returns (f: Finish)
      requires Valid() && session == A.STARTED
      modifies this`session, this`acts, client
      ensures Valid() && Ends() == old(Ends()).(read := client.read, incoming := client.incoming)
      ensures client.read + client.incoming == old(client.read + client.incoming)
      ensures f.Crashed? <==> old(client.incoming) != []
      ensures f.Hung? <==> old(client.incoming) == [] && !client.closes
      ensures f.Ended? ==> session == A.STARTED.(phase := A.Closing) && acts == old(acts) + [A.StartupFail]
    {
      var m := client.Receive();
      if m.Got? {
        assert old(client.incoming) == [m.msg] + client.incoming;
        Grouped(old(client.read), [m.msg], client.incoming);
      }
      f := if m.Blocked? then Hung else if m.Got? then Crashed else Ended;
      if f.Ended? {
        Act(A.StartupFail);
      }
    }

    lemma OutcomeCutShort(r: Started, got: seq<BackendMsg>, sent: seq<BackendMsg>)
      requires Outcome(r, got, sent)
      ensures CutShort(sent, Welcome(got, env.pool))
    {
      var whole := Welcome(got, env.pool);
      if r.Entered? {
        assert CutAt(sent, whole, |whole|, []);
      } else if sent == [] {
        assert CutAt(sent, whole, 0, []);
      } else if sent == Greeting(got) {
        assert CutAt(sent, whole, |sent|, []);
      }
    }
  }
}
