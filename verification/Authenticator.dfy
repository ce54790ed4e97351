/** Authentication of a client: its password or token is asked for, turned into the account the
    proxy logs in with, and tried on a temporary connection (internal/auth/authenticator.go). */
module Authenticator {
  import opened Options
  import opened CancelKeys
  import opened Wire
  import opened BackendAuth
  import opened Strings
  import T = Token
  import R = Roles

  type PublicKey = nat

  /** What the token library, the key cache and the clock say. */
  datatype Tokens = Tokens(
    validator: T.Validator,
    now: real,
    parse: string -> Option<T.Jwt>,
    keyFor: string -> Option<PublicKey>,
    verifies: (T.Jwt, PublicKey) -> bool)

  predicate LooksLikeToken(password: string) {
    "eyJ" <= password && CountChar(password, '.') == 2
  }

  /** Three parts with two dots between them, the first beginning as a JSON object does in base64. */
  lemma LooksLikeTokenIs(password: string)
    ensures LooksLikeToken(password) <==>
      "eyJ" <= password && exists a, b, c :: InThree(password, a, b, c)
  {
    if a, b, c :| InThree(password, a, b, c) {
      TwoDots(password, a, b, c);
    }
    if CountChar(password, '.') == 2 {
      var a, b, c := Cut(password);
    }
  }

  lemma TwoDots(password: string, a: string, b: string, c: string)
    requires InThree(password, a, b, c)
    ensures CountChar(password, '.') == 2
  {
    var rest := b + ['.'] + c;
    assert password == a + ['.'] + rest;
    CountCharIs(password, '.');
    CountCharIs(rest, '.');
    CountCharIs(c, '.');
  }

  predicate InThree(password: string, a: string, b: string, c: string) {
    password == a + "." + b + "." + c && '.' !in a && '.' !in b && '.' !in c
  }

  lemma Cut(password: string) returns (a: string, b: string, c: string)
    requires CountChar(password, '.') == 2
    ensures InThree(password, a, b, c)
  {
    var rest;
    a, rest := CutOnce(password);
    b, c := CutOnce(rest);
    CountCharIs(c, '.');
    Grouped(a + ".", b + ".", c);
    Grouped(a + ".", b, ".");
  }

  lemma CutOnce(s: string) returns (before: string, after: string)
    requires CountChar(s, '.') > 0
    ensures s == before + "." + after && '.' !in before && CountChar(after, '.') == CountChar(s, '.') - 1
  {
    CountCharIs(s, '.');
    SplitAtFirst(s, '.');
    before, after := SplitAt(s, '.').value.0, SplitAt(s, '.').value.1;
    assert s == before + ['.'] + after;
  }

  /** A token the validator accepts, offering these roles. */
  ghost predicate Accepted(tokens: Tokens, password: string, roles: seq<string>) {
    var token := tokens.parse(password);
    && token.Some? && token.value.alg == "RS256"
    && "kid" in token.value.header && token.value.header["kid"].Str?
    && tokens.keyFor(token.value.header["kid"].s).Some?
    && tokens.verifies(token.value, tokens.keyFor(token.value.header["kid"].s).value)
    && T.Acceptable(tokens.validator, token.value.claims, tokens.now)
    && roles == T.Roles(token.value.claims)
  }

  /** Who the temporary connection logs in as: the startup user with the password given, or the
      service account of an accepted token's roles. */
  ghost predicate Identifies(tokens: Tokens, accounts: R.Accounts, defaultRole: string, user: string, password: string,
                             who: Credentials) {
    if !LooksLikeToken(password) then who == Credentials(user, password)
    else exists roles, account ::
      && Accepted(tokens, password, roles)
      && R.MapsTo(accounts, defaultRole, roles, Some(account))
      && who == Credentials(account.username, account.password)
  }

  lemma IdentityIsUnique(tokens: Tokens, accounts: R.Accounts, defaultRole: string, user: string, password: string,
                         a: Credentials, b: Credentials)
    requires Identifies(tokens, accounts, defaultRole, user, password, a)
    requires Identifies(tokens, accounts, defaultRole, user, password, b)
    ensures a == b
  {
    if LooksLikeToken(password) {
      var roles, x :| Accepted(tokens, password, roles) && R.MapsTo(accounts, defaultRole, roles, Some(x))
                      && a == Credentials(x.username, x.password);
      var roles', y :| Accepted(tokens, password, roles') && R.MapsTo(accounts, defaultRole, roles', Some(y))
                       && b == Credentials(y.username, y.password);
      R.MapsToOneAccount(accounts, defaultRole, roles, Some(x), Some(y));
    }
  }

  /** Without its last message, if that is an error. */
  function NoError(got: seq<BackendMsg>): seq<BackendMsg> {
    if got != [] && got[|got| - 1].ErrorResponse? then got[..|got| - 1] else got
  }

  /** What a client sees of a successful authentication. */
  function Greeting(got: seq<BackendMsg>): seq<BackendMsg> {
    [AuthenticationCleartextPassword] + Forwarded(NoError(got))
  }

  /** Broken off anywhere, with at most one error after it and nothing after that. */
  ghost predicate CutShort(sent: seq<BackendMsg>, whole: seq<BackendMsg>) {
    exists n: nat, e: seq<BackendMsg> :: CutAt(sent, whole, n, e)
  }

  predicate CutAt(sent: seq<BackendMsg>, whole: seq<BackendMsg>, n: nat, e: seq<BackendMsg>) {
    n <= |whole| && sent == whole[..n] + e && |e| <= 1 && forall m :: m in e ==> m.ErrorResponse?
  }

  datatype Result =
    | Ok(temp: Key)
    | Denied
    | Hangs
    | Crash     // the backend was ready without having sent a key: a nil pointer is followed

  method SendErrorToClient(client: ClientWire, message: string) returns (ghost sent: seq<BackendMsg>)
    requires forall h :: client.react(h) == []
    modifies client
    ensures client.read == old(client.read) && client.incoming == old(client.incoming)
    ensures client.delivered == old(client.delivered) + sent
    ensures sent == [] || sent == [ErrorResponse("08006", message)]
  {
    var ok := client.Send(ErrorResponse("08006", message));
    sent := if ok then [ErrorResponse("08006", message)] else [];
  }

  /** The account for a password, or why there is none. */
  method Identify(tokens: Tokens, mapper: R.RoleMapper, user: string, password: string)
    returns (who: Option<Credentials>, refusal: string)
    ensures who.Some? ==> Identifies(tokens, mapper.roleToAccount, mapper.defaultRole, user, password, who.value)
    ensures who.None? ==> forall w :: !Identifies(tokens, mapper.roleToAccount, mapper.defaultRole, user, password, w)
  {
    refusal := "";
    if !LooksLikeToken(password) {
      return Some(Credentials(user, password)), "";
    }
    var oauth := T.ValidateJWT(tokens.parse(password), tokens.validator, tokens.now, tokens.keyFor, tokens.verifies);
    if oauth.None? {
      return None, "Invalid authentication token";
    }
    var account := mapper.MapRoleToServiceAccount(oauth.value.roles);
    assert Accepted(tokens, password, oauth.value.roles);
    if account.None? {
      forall w ensures !Identifies(tokens, mapper.roleToAccount, mapper.defaultRole, user, password, w) {
        if roles, x :|
          Accepted(tokens, password, roles) && R.MapsTo(mapper.roleToAccount, mapper.defaultRole, roles, Some(x))
        {
          R.MapsToOneAccount(mapper.roleToAccount, mapper.defaultRole, roles, Some(x), None);
        }
      }
      return None, "Access denied: no valid roles";
    }
    who := Some(Credentials(account.value.username, account.value.password));
  }

  datatype Asked = Password(password: string) | NoPassword | NeverAnswered

  /** requestPasswordFromClient: asks for a cleartext password and takes nothing else for an answer. */
  method RequestPasswordFromClient(client: ClientWire) returns (a: Asked, ghost sent: seq<BackendMsg>)
    requires forall h :: client.react(h) == []
    modifies client
    ensures client.delivered == old(client.delivered) + sent
    ensures sent == [AuthenticationCleartextPassword] || (a.NoPassword? && sent == [])
    ensures client.read + client.incoming == old(client.read + client.incoming)
    ensures |client.incoming| <= |old(client.incoming)|
    ensures a.Password? ==> client.read == old(client.read) + [PasswordMessage(a.password)]
    ensures client.sends == old(client.sends) + 1
    ensures a.Password? <==>
      client.sendOk(old(client.sends)) && old(client.incoming) != [] && old(client.incoming)[0].PasswordMessage?
    ensures a.Password? ==>
      old(client.incoming)[0] == PasswordMessage(a.password) && client.incoming == old(client.incoming)[1..]
    ensures a.NeverAnswered? <==> client.sendOk(old(client.sends)) && old(client.incoming) == [] && !client.closes
  {
    sent := [];
    var ok := client.Send(AuthenticationCleartextPassword);
    if !ok {
      return NoPassword, sent;
    }
    sent := [AuthenticationCleartextPassword];
    var r := client.Receive();
    assert old(client.incoming) != [] ==> old(client.incoming) == [old(client.incoming)[0]] + old(client.incoming)[1..];
    match r {
      case Blocked => a := NeverAnswered;
      case Got(PasswordMessage(password)) => a := Password(password);
      case _ => a := NoPassword;
    }
  }

  /** What the temporary connection was sent for an account: its startup message, then the answers to
      what the backend said, but for the one to its last message if that could not be sent. */
  predicate SentAs(who: Credentials, parameters: map<string, string>, crypto: Crypto, got: seq<BackendMsg>,
                   delivered: seq<FrontendMsg>) {
    var startup := [StartupMessage(parameters["user" := who.username])];
    || delivered == startup + Responses(crypto, who, got)
    || (got != [] && delivered == startup + Responses(crypto, who, got[..|got| - 1]))
  }

  predicate GotReady(got: seq<BackendMsg>) {
    got != [] && got[|got| - 1].ReadyForQuery?
  }

  /** The last leg: the startup message with the account's name, then the authentication loop. */
  method LogIn(who: Credentials, parameters: map<string, string>, client: ClientWire, temp: BackendWire, crypto: Crypto)
    returns (r: Result, ghost got: seq<BackendMsg>, ghost sent: seq<BackendMsg>)
    requires (forall h :: client.react(h) == []) && (forall h :: temp.react(h) == [])
    requires temp.delivered == []
    modifies client, temp
    ensures client.delivered == old(client.delivered) + sent
    ensures temp.read == old(temp.read) + got && got + temp.incoming == old(temp.incoming)
    ensures client.read == old(client.read) && client.incoming == old(client.incoming)
    ensures Meaning(r, got, [AuthenticationCleartextPassword] + sent)
    ensures temp.delivered != [] ==>
      temp.sendOk(old(temp.sends)) && SentAs(who, parameters, crypto, got, temp.delivered)
    ensures GotReady(got) <==>
      && temp.sendOk(old(temp.sends))
      && LogsIn(crypto, who, old(temp.incoming), old(client.Sending()), Later(old(temp.Sending()), 1))
    ensures r.Hangs? <==>
      && temp.sendOk(old(temp.sends)) && !temp.closes
      && Starves(crypto, who, old(temp.incoming), old(client.Sending()), Later(old(temp.Sending()), 1))
    ensures GotReady(got) ==> client.sends == old(client.sends) + |sent|
  {
    got := [];
    var ok := temp.Send(StartupMessage(parameters["user" := who.username]));
    if !ok {
      sent := SendErrorToClient(client, "Authentication failed");
      assert CutAt([AuthenticationCleartextPassword] + sent, Greeting(got), 1, sent);
      return Denied, got, sent;
    }
    r, got, sent := Converse(who, parameters, client, temp, crypto);
  }

  /** What follows the startup message. */
  method Converse(who: Credentials, parameters: map<string, string>, client: ClientWire, temp: BackendWire,
                  crypto: Crypto)
    returns (r: Result, ghost got: seq<BackendMsg>, ghost sent: seq<BackendMsg>)
    requires (forall h :: client.react(h) == []) && (forall h :: temp.react(h) == [])
    requires temp.delivered == [StartupMessage(parameters["user" := who.username])]
    modifies client, temp
    ensures client.delivered == old(client.delivered) + sent
    ensures temp.read == old(temp.read) + got && got + temp.incoming == old(temp.incoming)
    ensures client.read == old(client.read) && client.incoming == old(client.incoming)
    ensures Meaning(r, got, [AuthenticationCleartextPassword] + sent)
    ensures SentAs(who, parameters, crypto, got, temp.delivered)
    ensures GotReady(got) <==> LogsIn(crypto, who, old(temp.incoming), old(client.Sending()), old(temp.Sending()))
    ensures r.Hangs? <==>
      !temp.closes && Starves(crypto, who, old(temp.incoming), old(client.Sending()), old(temp.Sending()))
    ensures GotReady(got) ==> client.sends == old(client.sends) + |sent|
  {
    var o, key;
    ghost var p;
    o, key, p := AuthenticateWithBackend(temp, client, who, crypto);
    got, sent := p.got, p.toClient;
    WhatTheLoopMeans(crypto, who, parameters, o, p, old(client.Sending()), old(temp.Sending()));
    r := ResultOf(o, key);
  }

  function ResultOf(o: Outcome, key: Option<Key>): Result {
    match o
    case Authenticated => if key.Some? then Ok(key.value) else Crash
    case Waiting => Hangs
    case _ => Denied
  }

  /** What a result says of the backend's messages and the client's. */
  ghost predicate Meaning(r: Result, got: seq<BackendMsg>, sent: seq<BackendMsg>) {
    && (r.Ok? || r.Crash? <==> GotReady(got))
    && (r.Ok? || r.Crash? ==> sent == Greeting(got) && LastKey(got) == if r.Ok? then Some(r.temp) else None)
    && (r.Denied? ==> CutShort(sent, Greeting(got)))
    && (r.Hangs? ==> sent == Greeting(got))
    && (GotReady(got) ==> forall m :: m in got[..|got| - 1] ==> !m.ReadyForQuery?)
  }

  lemma WhatTheLoopMeans(crypto: Crypto, who: Credentials, parameters: map<string, string>, o: Outcome, p: Progress,
                         client: Sender, backend: Sender)
    requires Ran(crypto, who, o, p, client, backend)
    ensures o.Authenticated? <==> GotReady(p.got)
    ensures SentAs(who, parameters, crypto, p.got, [StartupMessage(parameters["user" := who.username])] + p.toBackend)
    ensures Meaning(ResultOf(o, p.key), p.got, [AuthenticationCleartextPassword] + p.toClient)
  {
    if o.Authenticated? {
      SucceedsAtFirstReady(crypto, who, p.got[..|p.got| - 1]);
    }
    var got, all, whole := p.got, [AuthenticationCleartextPassword] + p.toClient, Greeting(p.got);
    if OutOfMessages(o) {
      SucceedsAtFirstReady(crypto, who, got);
    } else {
      ReactionOk(crypto, who, Conversation(crypto, who, got[..|got| - 1]), got[|got| - 1]);
    }
    if got != [] && got[|got| - 1].ErrorResponse? && o.Refused? {
      assert CutAt(all, whole, |whole|, [got[|got| - 1]]);
    } else {
      assert CutAt(all, whole, |all|, []);
    }
  }

  /** What a login starts from: the client's and the backend's messages to come, which sends to either
      will succeed, and whether they then hang up. */
  datatype Attempt = Attempt(
    script: seq<FrontendMsg>, client: Sender, closes: bool, tempScript: seq<BackendMsg>, temp: Sender, tempCloses: bool)

  /** What it is decided by besides. */
  datatype Setup = Setup(dialled: bool, tokens: Tokens, crypto: Crypto, accounts: R.Accounts, defaultRole: string)

  function From(client: ClientWire, temp: BackendWire): Attempt
    reads client, temp
  {
    Attempt(client.incoming, client.Sending(), client.closes, temp.incoming, temp.Sending(), temp.closes)
  }

  /** The client gives a password that makes it `who`, and the backend can be asked for that account. */
  ghost predicate Applies(x: Attempt, user: string, setup: Setup, who: Credentials) {
    && setup.dialled && x.client.ok(x.client.next)
    && x.script != [] && x.script[0].PasswordMessage?
    && Identifies(setup.tokens, setup.accounts, setup.defaultRole, user, x.script[0].password, who)
    && x.temp.ok(x.temp.next)
  }

  /** Everything a login needs to get to the backend's ReadyForQuery. */
  ghost predicate Succeeds(x: Attempt, user: string, setup: Setup) {
    exists who ::
      Applies(x, user, setup, who) && LogsIn(setup.crypto, who, x.tempScript, Later(x.client, 1), Later(x.temp, 1))
  }

  /** Everything that makes it wait for ever: for the client's answer, or for the backend's. */
  ghost predicate Waits(x: Attempt, user: string, setup: Setup) {
    || (setup.dialled && x.client.ok(x.client.next) && x.script == [] && !x.closes)
    || (!x.tempCloses && exists who ::
          && Applies(x, user, setup, who)
          && Starves(setup.crypto, who, x.tempScript, Later(x.client, 1), Later(x.temp, 1)))
  }

  /** The temporary connection, if it was used, was asked for the identity the client proved, and
      answered as that identity. */
  ghost predicate AskedAs(x: Attempt, user: string, parameters: map<string, string>, setup: Setup, got: seq<BackendMsg>,
                          delivered: seq<FrontendMsg>) {
    delivered != [] ==> exists who ::
      Applies(x, user, setup, who) && SentAs(who, parameters, setup.crypto, got, delivered)
  }

  /** `got` is what the temporary connection's backend said, `sent` what the client was sent. */
  method AuthenticateUser(user: string, parameters: map<string, string>, dialled: bool, client: ClientWire,
                          temp: BackendWire, tokens: Tokens, crypto: Crypto, mapper: R.RoleMapper)
    returns (r: Result, ghost got: seq<BackendMsg>, ghost sent: seq<BackendMsg>)
    requires (forall h :: client.react(h) == []) && (forall h :: temp.react(h) == [])
    requires temp.delivered == []
    modifies client, temp
    ensures client.delivered == old(client.delivered) + sent
    ensures temp.read == old(temp.read) + got && got + temp.incoming == old(temp.incoming)
    ensures client.read + client.incoming == old(client.read + client.incoming)
    ensures |client.incoming| <= |old(client.incoming)|
    ensures Meaning(r, got, sent)
    ensures GotReady(got) ==> got == UpToReady(old(temp.incoming)) && client.sends == old(client.sends) + |sent|
    ensures GotReady(got) ==> exists password :: client.read == old(client.read) + [PasswordMessage(password)]
    ensures var setup := Setup(dialled, tokens, crypto, mapper.roleToAccount, mapper.defaultRole);
      var x := old(From(client, temp));
      && (GotReady(got) <==> Succeeds(x, user, setup)) && (r.Hangs? <==> Waits(x, user, setup))
      && AskedAs(x, user, parameters, setup, got, temp.delivered)
  {
    ghost var x, setup := From(client, temp), Setup(dialled, tokens, crypto, mapper.roleToAccount, mapper.defaultRole);
    got := [];
    if !dialled {
      sent := SendErrorToClient(client, "Backend Unavailable");
      assert CutAt(sent, Greeting(got), 0, sent);
      return Denied, got, sent;
    }
    var asked;
    asked, sent := RequestPasswordFromClient(client);
    if asked.NeverAnswered? {
      return Hangs, got, sent;
    }
    ghost var more;
    if asked.NoPassword? {
      more := SendErrorToClient(client, "Authentication failed");
      assert CutAt(sent + more, Greeting(got), |sent|, more);
      return Denied, got, sent + more;
    }
    r, got, more := UsePassword(asked.password, user, parameters, client, temp, tokens, crypto, mapper, x);
    Grouped(old(client.delivered), sent, more);
    sent := sent + more;
  }

  /** What follows the password. */
  method UsePassword(password: string, user: string, parameters: map<string, string>, client: ClientWire,
                     temp: BackendWire, tokens: Tokens, crypto: Crypto, mapper: R.RoleMapper, ghost x: Attempt)
    returns (r: Result, ghost got: seq<BackendMsg>, ghost sent: seq<BackendMsg>)
    requires (forall h :: client.react(h) == []) && (forall h :: temp.react(h) == [])
    requires temp.delivered == []
    requires x.client.ok(x.client.next) && x.script != [] && x.script[0] == PasswordMessage(password)
    requires From(client, temp) == x.(script := x.script[1..], client := Later(x.client, 1))
    modifies client, temp
    ensures client.delivered == old(client.delivered) + sent
    ensures client.read == old(client.read) && client.incoming == old(client.incoming)
    ensures temp.read == old(temp.read) + got && got + temp.incoming == x.tempScript
    ensures Meaning(r, got, [AuthenticationCleartextPassword] + sent)
    ensures GotReady(got) ==> got == UpToReady(x.tempScript) && client.sends == old(client.sends) + |sent|
    ensures var setup := Setup(true, tokens, crypto, mapper.roleToAccount, mapper.defaultRole);
      && (GotReady(got) <==> Succeeds(x, user, setup)) && (r.Hangs? <==> Waits(x, user, setup))
      && AskedAs(x, user, parameters, setup, got, temp.delivered)
  {
    ghost var setup := Setup(true, tokens, crypto, mapper.roleToAccount, mapper.defaultRole);
    var who, refusal := Identify(tokens, mapper, user, password);
    if who.None? {
      got := [];
      sent := SendErrorToClient(client, refusal);
      assert CutAt([AuthenticationCleartextPassword] + sent, Greeting(got), 1, sent);
      return Denied, got, sent;
    }
    WhoDecides(x, user, setup, who.value);
    r, got, sent := LogIn(who.value, parameters, client, temp, crypto);
    if GotReady(got) {
      ReadUpToReady(x.tempScript, got, temp.incoming);
    }
    assert temp.delivered != [] ==> Applies(x, user, setup, who.value);
  }

  /** There is one identity, and it decides. */
  lemma WhoDecides(x: Attempt, user: string, setup: Setup, who: Credentials)
    requires setup.dialled && x.client.ok(x.client.next) && x.script != [] && x.script[0].PasswordMessage?
    requires Identifies(setup.tokens, setup.accounts, setup.defaultRole, user, x.script[0].password, who)
    ensures Succeeds(x, user, setup) <==>
      x.temp.ok(x.temp.next) && LogsIn(setup.crypto, who, x.tempScript, Later(x.client, 1), Later(x.temp, 1))
    ensures Waits(x, user, setup) <==>
      && x.temp.ok(x.temp.next) && !x.tempCloses
      && Starves(setup.crypto, who, x.tempScript, Later(x.client, 1), Later(x.temp, 1))
  {
    OneIdentity(setup.tokens, setup.accounts, setup.defaultRole, user, x.script[0].password, who);
    assert x.temp.ok(x.temp.next) <==> Applies(x, user, setup, who);
  }

  lemma OneIdentity(tokens: Tokens, accounts: R.Accounts, defaultRole: string, user: string, password: string,
                    who: Credentials)
    requires Identifies(tokens, accounts, defaultRole, user, password, who)
    ensures forall w :: Identifies(tokens, accounts, defaultRole, user, password, w) ==> w == who
  {
    forall w | Identifies(tokens, accounts, defaultRole, user, password, w) ensures w == who {
      IdentityIsUnique(tokens, accounts, defaultRole, user, password, w, who);
    }
  }

  // ----- The backend's ReadyForQuery -----

  /** A script up to its first ReadyForQuery, or all of it. */
  function UpToReady(script: seq<BackendMsg>): seq<BackendMsg> {
    if script == [] then []
    else if script[0].ReadyForQuery? then [script[0]]
    else [script[0]] + UpToReady(script[1..])
  }

  lemma {:induction false} UpToReadyAt(script: seq<BackendMsg>, n: nat)
    requires n < |script| && script[n].ReadyForQuery? && forall i :: 0 <= i < n ==> !script[i].ReadyForQuery?
    ensures UpToReady(script) == script[..n + 1]
  {
    if n > 0 {
      UpToReadyAt(script[1..], n - 1);
      assert script[..n + 1] == [script[0]] + script[1..][..n];
    }
  }

  /** The login read the backend's script to its first ReadyForQuery. */
  lemma ReadUpToReady(script: seq<BackendMsg>, got: seq<BackendMsg>, rest: seq<BackendMsg>)
    requires script == got + rest && GotReady(got) && forall m :: m in got[..|got| - 1] ==> !m.ReadyForQuery?
    ensures got == UpToReady(script)
  {
    var n := |got| - 1;
    assert forall i :: 0 <= i < n ==> script[i] == got[..n][i];
    UpToReadyAt(script, n);
    assert script[..n + 1] == got;
  }
}
