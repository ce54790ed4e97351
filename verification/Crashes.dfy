/** Two sessions that follow a nil pointer, one for each way there is. */
module Crashes {
  import opened Options
  import opened CancelKeys
  import opened PooledBackend
  import opened Wire
  import opened Authenticator
  import opened Startup
  import C = Connection
  import B = BackendAuth
  import A = SessionAutomaton
  import R = Roles
  import T = Token

  /** Everything works, and no token is ever accepted. */
  function WorkingEnv(): Env {
    Env(false, n => true, true,
        Tokens(T.Validator("", ""), 0.0, password => None, kid => None, (token, key) => false),
        B.Crypto((user, password, salt) => "", (user, password) => None, (conversation, data) => None),
        NoConnection, false, false, false, true)
  }

  function Always(n: nat): bool {
    true
  }

  function SilentClient(sent: seq<BackendMsg>): seq<FrontendMsg> {
    []
  }

  function SilentBackend(sent: seq<FrontendMsg>): seq<BackendMsg> {
    []
  }

  /** No roles are mapped. */
  function NoRoles(): Setup {
    Setup(true, WorkingEnv().tokens, WorkingEnv().crypto, map[], "")
  }

  function StartingWith(client: seq<FrontendMsg>, backend: seq<BackendMsg>): Snapshot {
    Snapshot([], client, [], Sender(Always, 0), 0,
             Rest([], backend, [], Sender(Always, 0), true, true, NEW, map[], [], []))
  }

  method Connect(client: seq<FrontendMsg>, backend: seq<BackendMsg>) returns (c: C.Connection)
    ensures fresh(c) && fresh(c.client) && fresh(c.temp) && fresh(c.server) && c.env == WorkingEnv()
    ensures c.Valid() && c.Apart() && c.session == A.STARTED && c.temp.delivered == [] && c.conn == 0
    ensures c.Here() == StartingWith(client, backend) && c.Setup() == NoRoles()
  {
    var clientWire := new Wire(client, SilentClient, true, Always);
    var temp := new Wire(backend, SilentBackend, true, Always);
    var server := new Server();
    var mapper := new R.RoleMapper("");
    c := new C.Connection(1, clientWire, temp, server, mapper, WorkingEnv());
  }

  /** A session whose client and backend say these things, on wires that never fail. */
  method Session(client: seq<FrontendMsg>, backend: seq<BackendMsg>) returns (f: C.Finish)
    ensures f.Crashed? <==> CrashesOn(WorkingEnv(), StartingWith(client, backend), NoRoles())
  {
    var c := Connect(client, backend);
    ghost var course, at, o, s;
    f, course, at, o, s := c.HandleConnection();
  }

  /** After a GSSENCRequest, the next message is for a pooled connection that is not there. */
  method GssRequestThenAnything(m: FrontendMsg) returns (f: C.Finish)
    ensures f.Crashed?
  {
    f := Session([GSSEncRequest, m], []);
  }

  /** A backend that is ready and has sent no key: the key the login returns is not there. */
  method ReadyWithoutAKey() returns (f: C.Finish)
    ensures f.Crashed?
  {
    var login := [StartupMessage(map["user" := "u"]), PasswordMessage("p")];
    KeylessLogin(login, [AuthenticationOk, ReadyForQuery(Idle)]);
    f := Session(login, [AuthenticationOk, ReadyForQuery(Idle)]);
  }

  lemma KeylessLogin(login: seq<FrontendMsg>, backend: seq<BackendMsg>)
    requires login == [StartupMessage(map["user" := "u"]), PasswordMessage("p")]
    requires backend == [AuthenticationOk, ReadyForQuery(Idle)]
    ensures CrashesOn(WorkingEnv(), StartingWith(login, backend), NoRoles())
  {
    var env, who, ok := WorkingEnv(), B.Credentials("u", "p"), Sender(Always, 1);
    assert login[1..] == [PasswordMessage("p")];
    KeylessScript(env.crypto, who, backend);
    assert B.GetsReady(env.crypto, who, backend, 1, ok, ok);
    assert !LooksLikeToken("p");
    assert Identifies(env.tokens, map[], "", "u", "p", who);
    var a, h := StartingWith(login, backend), HelloAt(StartingWith(login, backend));
    assert AfterSsl(env, h) == Some(h);
    var x := AttemptOf(Some(h), a.rest);
    assert x.script[0].password == "p" && Later(x.client, 1) == Later(x.temp, 1) == ok;
    assert Applies(x, "u", NoRoles(), who);
    assert Succeeds(x, "u", NoRoles());
    assert GetsIn(Some(h), a.rest, NoRoles());
  }

  lemma KeylessScript(crypto: B.Crypto, who: B.Credentials, backend: seq<BackendMsg>)
    requires backend == [AuthenticationOk, ReadyForQuery(Idle)]
    ensures B.GoesOn(crypto, who, backend[..1])
    ensures B.Forwarded(backend[..1]) == [AuthenticationOk] && B.Responses(crypto, who, backend[..1]) == []
    ensures B.LastKey(UpToReady(backend)).None?
  {
    UpToReadyAt(backend, 1);
    var one := backend[..1];
    assert backend[..2] == backend && one == [AuthenticationOk] && one[..|one| - 1] == [];
    assert B.GoesOn(crypto, who, one[..|one| - 1]) && B.ReactTo(crypto, who, one).verdict.GoOn?;
    assert B.LastKey(one).None? && B.LastKey(backend) == B.LastKey(backend[..|backend| - 1]);
  }
}
