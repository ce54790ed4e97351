/** The proxy's own authentication with PostgreSQL on a temporary connection, and what of it reaches
    the client (authenticateWithBackend in internal/auth/authenticator.go). */
module BackendAuth {
  import opened Options
  import opened CancelKeys
  import opened PooledBackend
  import opened Wire

  const SCRAM := "SCRAM-SHA-256"

  /** The hashing and SCRAM libraries; a conversation is known by a number. */
  datatype Crypto = Crypto(
    md5: (string, string, seq<bv8>) -> string,              // the md5 password for a salt
    newConversation: (string, string) -> Option<nat>,       // SHA256.NewClient(...).NewConversation()
    step: (nat, string) -> Option<(nat, string)>)           // conversation.Step

  datatype Credentials = Credentials(username: string, password: string)

  /** What the loop does with one backend message: replies to the backend, passes it to the client,
      and goes on, fails or succeeds. `conversation` is the SCRAM conversation afterwards. */
  datatype Reaction = Reaction(reply: Option<FrontendMsg>, forward: bool, conversation: Option<nat>, verdict: Verdict)

  datatype Verdict = GoOn | Fail | Succeed

  /** The switch of the loop. */
  function React(crypto: Crypto, who: Credentials, conversation: Option<nat>, msg: BackendMsg): Reaction {
    match msg
    case ErrorResponse(_, _) => Reaction(None, true, conversation, Fail)
    case AuthenticationOk => Reaction(None, true, conversation, GoOn)
    case ReadyForQuery(_) => Reaction(None, false, conversation, Succeed)
    case ParameterStatus(_, _) => Reaction(None, true, conversation, GoOn)
    case AuthenticationCleartextPassword => Reaction(Some(PasswordMessage(who.password)), false, conversation, GoOn)
    case AuthenticationMD5Password(salt) =>
      Reaction(Some(PasswordMessage(crypto.md5(who.username, who.password, salt))), false, conversation, GoOn)
    case AuthenticationSASL(mechanisms) =>
      if SCRAM !in mechanisms then Reaction(None, false, conversation, Fail)
      else (match crypto.newConversation(who.username, who.password)
        case None => Reaction(None, false, conversation, Fail)
        case Some(c) =>
          match crypto.step(c, "")
          case None => Reaction(None, false, Some(c), Fail)
          case Some((c', data)) => Reaction(Some(SASLInitialResponse(SCRAM, data)), false, Some(c'), GoOn))
    case AuthenticationSASLContinue(data) =>
      if conversation.None? then Reaction(None, false, None, Fail)
      else (match crypto.step(conversation.value, data)
        case None => Reaction(None, false, conversation, Fail)
        case Some((c', response)) => Reaction(Some(SASLResponse(response)), false, Some(c'), GoOn))
    case AuthenticationSASLFinal(data) =>
      if conversation.None? then Reaction(None, false, None, Fail)
      else (match crypto.step(conversation.value, data)
        case None => Reaction(None, false, conversation, Fail)
        case Some((c', _)) => Reaction(None, false, Some(c'), GoOn))
    case _ => Reaction(None, false, conversation, GoOn)
  }

  function Conversation(crypto: Crypto, who: Credentials, got: seq<BackendMsg>): Option<nat> {
    if got == [] then None
    else React(crypto, who, Conversation(crypto, who, got[..|got| - 1]), got[|got| - 1]).conversation
  }

  /** The reaction to the last of the messages. */
  function ReactTo(crypto: Crypto, who: Credentials, got: seq<BackendMsg>): Reaction
    requires got != []
  {
    React(crypto, who, Conversation(crypto, who, got[..|got| - 1]), got[|got| - 1])
  }

  /** The messages the client is to see, and the proxy's replies to the backend. */
  function Forwarded(got: seq<BackendMsg>): seq<BackendMsg> {
    if got == [] then []
    else Forwarded(got[..|got| - 1]) + if Passes(got[|got| - 1]) then [got[|got| - 1]] else []
  }

  predicate Passes(msg: BackendMsg) {
    msg.AuthenticationOk? || msg.ParameterStatus? || msg.ErrorResponse?
  }

  function Responses(crypto: Crypto, who: Credentials, got: seq<BackendMsg>): seq<FrontendMsg> {
    if got == [] then [] else Responses(crypto, who, got[..|got| - 1]) + Listed(ReactTo(crypto, who, got).reply)
  }

  function Listed<T>(x: Option<T>): seq<T> {
    if x.Some? then [x.value] else []
  }

  function LastKey(got: seq<BackendMsg>): Option<Key> {
    if got == [] then None
    else if got[|got| - 1].BackendKeyData? then Some(got[|got| - 1].key)
    else LastKey(got[..|got| - 1])
  }

  /** Every message read so far let the loop go on. */
  predicate GoesOn(crypto: Crypto, who: Credentials, got: seq<BackendMsg>) {
    got == [] || (GoesOn(crypto, who, got[..|got| - 1]) && ReactTo(crypto, who, got).verdict.GoOn?)
  }

  /** The loop fails at a message it refuses, when the backend hangs up, or at a send. */
  datatype Outcome = Authenticated | Refused | HungUp | SendFailed | Waiting

  predicate OutOfMessages(o: Outcome) {
    o.Waiting? || o.HungUp?
  }

  /** What the loop has read, sent and kept. */
  datatype Progress = Progress(
    got: seq<BackendMsg>, toClient: seq<BackendMsg>, toBackend: seq<FrontendMsg>,
    conversation: Option<nat>, key: Option<Key>)

  const NOTHING := Progress([], [], [], None, None)

  /** The loop between two messages: all it read let it go on, and it did all that was to be done. */
  predicate Running(crypto: Crypto, who: Credentials, p: Progress) {
    && GoesOn(crypto, who, p.got) && p.conversation == Conversation(crypto, who, p.got)
    && p.toClient == Forwarded(p.got) && p.toBackend == Responses(crypto, who, p.got) && p.key == LastKey(p.got)
  }

  /** The loop at its end. It ends at a message that fails or succeeds, at a closed connection, or at a
      send that fails; what one message would have sent is then the only thing missing. */
  predicate Ran(crypto: Crypto, who: Credentials, o: Outcome, p: Progress, client: Sender, backend: Sender) {
    var got := p.got;
    && p.key == LastKey(got) && Delivers(client, |p.toClient|) && Delivers(backend, |p.toBackend|)
    && if OutOfMessages(o) then
         GoesOn(crypto, who, got) && p.toClient == Forwarded(got) && p.toBackend == Responses(crypto, who, got)
       else
         && got != [] && GoesOn(crypto, who, got[..|got| - 1])
         && if o.SendFailed? then
              && p.toClient == Forwarded(got[..|got| - 1]) && p.toBackend == Responses(crypto, who, got[..|got| - 1])
              && CannotSend(ReactTo(crypto, who, got), Later(client, |p.toClient|), Later(backend, |p.toBackend|))
            else
              && p.toClient == Forwarded(got) && p.toBackend == Responses(crypto, who, got)
              && ReactTo(crypto, who, got).verdict == if o.Authenticated? then Succeed else Fail
  }

  predicate CannotSend(r: Reaction, client: Sender, backend: Sender) {
    if r.forward then !client.ok(client.next) else r.reply.Some? && !backend.ok(backend.next)
  }

  datatype Start = Start(
    script: seq<BackendMsg>, read: seq<BackendMsg>, delivered: seq<FrontendMsg>, backend: Sender,
    clientRead: seq<FrontendMsg>, clientIncoming: seq<FrontendMsg>, clientDelivered: seq<BackendMsg>, client: Sender)

  ghost function Here(frontend: BackendWire, client: ClientWire): Start
    reads frontend, client
  {
    Start(frontend.incoming, frontend.read, frontend.delivered, frontend.Sending(),
          client.read, client.incoming, client.delivered, client.Sending())
  }

  /** The wires are where the loop has brought them from `start`. */
  ghost predicate Tracks(p: Progress, frontend: BackendWire, client: ClientWire, start: Start)
    reads frontend, client
  {
    && frontend.read == start.read + p.got && p.got + frontend.incoming == start.script
    && frontend.delivered == start.delivered + p.toBackend
    && client.read == start.clientRead && client.incoming == start.clientIncoming
    && client.delivered == start.clientDelivered + p.toClient
  }

  /** No send has failed so far. */
  ghost predicate AllSent(p: Progress, frontend: BackendWire, client: ClientWire, start: Start)
    reads frontend, client
  {
    && client.Sending() == Later(start.client, |p.toClient|) && Delivers(start.client, |p.toClient|)
    && frontend.Sending() == Later(start.backend, |p.toBackend|) && Delivers(start.backend, |p.toBackend|)
  }

  /** The sends of one reaction; no reaction has two. */
  method CarryOut(frontend: BackendWire, client: ClientWire, reaction: Reaction, msg: BackendMsg) returns (ok: bool)
    requires (forall h :: client.react(h) == []) && (forall h :: frontend.react(h) == [])
    requires reaction.reply.None? || !reaction.forward
    modifies frontend, client
    ensures frontend.read == old(frontend.read) && frontend.incoming == old(frontend.incoming)
    ensures client.read == old(client.read) && client.incoming == old(client.incoming)
    ensures client.delivered == old(client.delivered) + if ok && reaction.forward then [msg] else []
    ensures frontend.delivered == old(frontend.delivered) + if ok then Listed(reaction.reply) else []
    ensures ok <==> !CannotSend(reaction, old(client.Sending()), old(frontend.Sending()))
    ensures client.sends == old(client.sends) + if reaction.forward then 1 else 0
    ensures frontend.sends == old(frontend.sends) + |Listed(reaction.reply)|
  {
    ok := true;
    if reaction.forward {
      ok := client.Send(msg);
    } else if reaction.reply.Some? {
      ok := frontend.Send(reaction.reply.value);
    }
  }

  /** One more message, and its reaction carried out or, if `ok` is false, its one send failed. */
  function Add(p: Progress, msg: BackendMsg, r: Reaction, ok: bool): Progress {
    Progress(
      p.got + [msg],
      p.toClient + (if ok && r.forward then [msg] else []),
      p.toBackend + (if ok then Listed(r.reply) else []),
      r.conversation,
      if msg.BackendKeyData? then Some(msg.key) else p.key)
  }

  lemma OneMore(crypto: Crypto, who: Credentials, p: Progress, msg: BackendMsg, ok: bool, client: Sender,
                backend: Sender)
    requires Running(crypto, who, p) && Delivers(client, |p.toClient|) && Delivers(backend, |p.toBackend|)
    requires var r := React(crypto, who, p.conversation, msg);
      ok <==> !CannotSend(r, Later(client, |p.toClient|), Later(backend, |p.toBackend|))
    ensures var r := React(crypto, who, p.conversation, msg);
      var p' := Add(p, msg, r, ok);
      && (ok ==> Delivers(client, |p'.toClient|) && Delivers(backend, |p'.toBackend|))
      && (ok && r.verdict.GoOn? ==> Running(crypto, who, p'))
      && (!(ok && r.verdict.GoOn?) ==> Ran(crypto, who, EndOf(r, ok), p', client, backend))
  {
    Extended(crypto, who, p, msg);
    ReactionOk(crypto, who, p.conversation, msg);
    var r := React(crypto, who, p.conversation, msg);
    if ok {
      SendsOne(p, msg, r, client, backend);
    }
    assert p.toClient + [] == p.toClient && p.toBackend + [] == p.toBackend;
  }

  /** A reaction sends one message at most. */
  lemma SendsOne(p: Progress, msg: BackendMsg, r: Reaction, client: Sender, backend: Sender)
    requires Delivers(client, |p.toClient|) && Delivers(backend, |p.toBackend|)
    requires !CannotSend(r, Later(client, |p.toClient|), Later(backend, |p.toBackend|))
    requires r.reply.None? || !r.forward
    ensures Delivers(client, |Add(p, msg, r, true).toClient|) && Delivers(backend, |Add(p, msg, r, true).toBackend|)
  {
  }

  lemma Extended(crypto: Crypto, who: Credentials, p: Progress, msg: BackendMsg)
    requires Running(crypto, who, p)
    ensures var r, got := React(crypto, who, p.conversation, msg), p.got + [msg];
      && got[..|got| - 1] == p.got && ReactTo(crypto, who, got) == r && Conversation(crypto, who, got) == r.conversation
      && (GoesOn(crypto, who, got) <==> r.verdict.GoOn?)
      && Forwarded(got) == p.toClient + (if Passes(msg) then [msg] else [])
      && Responses(crypto, who, got) == p.toBackend + Listed(r.reply)
      && LastKey(got) == if msg.BackendKeyData? then Some(msg.key) else p.key
  {
    var got := p.got + [msg];
    assert got[..|got| - 1] == p.got && got[|got| - 1] == msg;
  }

  function EndOf(r: Reaction, ok: bool): Outcome {
    if !ok then SendFailed else if r.verdict.Succeed? then Authenticated else Refused
  }

  /** A message is passed on or answered, never both; a ReadyForQuery is neither. */
  lemma ReactionOk(crypto: Crypto, who: Credentials, conversation: Option<nat>, msg: BackendMsg)
    ensures var r := React(crypto, who, conversation, msg); r.reply.None? || !r.forward
    ensures var r := React(crypto, who, conversation, msg); r.forward <==> Passes(msg)
    ensures var r := React(crypto, who, conversation, msg); r.verdict.Succeed? <==> msg.ReadyForQuery?
    ensures var r := React(crypto, who, conversation, msg); r.verdict.Succeed? ==> r.reply.None?
  {
  }

  /** authenticateWithBackend. It succeeds exactly if the backend's script gets it to a ReadyForQuery
      and the sends on the way succeed. */
  method AuthenticateWithBackend(frontend: BackendWire, client: ClientWire, who: Credentials, crypto: Crypto)
    returns (o: Outcome, key: Option<Key>, ghost p: Progress)
    requires (forall h :: client.react(h) == []) && (forall h :: frontend.react(h) == [])
    modifies frontend, client
    ensures Tracks(p, frontend, client, old(Here(frontend, client))) && key == p.key
    ensures Ran(crypto, who, o, p, old(client.Sending()), old(frontend.Sending()))
    ensures OutOfMessages(o) ==> frontend.incoming == [] && (o.Waiting? <==> !frontend.closes)
    ensures o.Authenticated? <==>
      LogsIn(crypto, who, old(frontend.incoming), old(client.Sending()), old(frontend.Sending()))
    ensures OutOfMessages(o) <==>
      Starves(crypto, who, old(frontend.incoming), old(client.Sending()), old(frontend.Sending()))
    ensures o.Authenticated? ==> client.sends == old(client.sends) + |p.toClient|
    ensures forall m :: m in p.toClient ==> Passes(m) && m in p.got
    ensures o.Refused? ==> p.got != [] && Refusable(crypto, who, p.got[..|p.got| - 1], p.got[|p.got| - 1])
  {
    ghost var start := Here(frontend, client);
    key, p := None, NOTHING;
    o := Waiting;
    var conversation: Option<nat> := None;
    var next := GoOn;
    while next.GoOn?
      invariant Tracks(p, frontend, client, start) && key == p.key
      invariant next.GoOn? ==>
        Running(crypto, who, p) && AllSent(p, frontend, client, start) && conversation == p.conversation
      invariant !next.GoOn? ==> Ended(crypto, who, o, p, frontend, start)
      invariant !next.GoOn? && o.Authenticated? ==> client.sends == start.client.next + |p.toClient|
      decreases next.GoOn?, |frontend.incoming|
    {
      o, next, conversation, key, p := Turn(frontend, client, who, crypto, conversation, key, p, start);
    }
    AuthenticatedExactly(crypto, who, start.script, frontend.incoming, o, p, start.client, start.backend);
    OutOfMessagesExactly(crypto, who, start.script, frontend.incoming, o, p, start.client, start.backend);
    OnlyTheseReachTheClient(p.got);
    if p.got != [] {
      RefusesExactly(crypto, who, o, p, start.client, start.backend);
      OnlyTheseReachTheClient(p.got[..|p.got| - 1]);
    }
  }

  /** The loop has ended, and says why. */
  ghost predicate Ended(crypto: Crypto, who: Credentials, o: Outcome, p: Progress, frontend: BackendWire, start: Start)
    reads frontend
  {
    && Ran(crypto, who, o, p, start.client, start.backend)
    && (OutOfMessages(o) ==> frontend.incoming == [] && (o.Waiting? <==> !frontend.closes))
  }

  /** One turn of the loop. */
  method Turn(frontend: BackendWire, client: ClientWire, who: Credentials, crypto: Crypto,
              conversation: Option<nat>, key: Option<Key>, ghost p: Progress, ghost start: Start)
    returns (o: Outcome, next: Verdict, conversation': Option<nat>, key': Option<Key>, ghost p': Progress)
    requires (forall h :: client.react(h) == []) && (forall h :: frontend.react(h) == [])
    requires Tracks(p, frontend, client, start) && key == p.key
    requires Running(crypto, who, p) && AllSent(p, frontend, client, start) && conversation == p.conversation
    modifies frontend, client
    ensures Tracks(p', frontend, client, start) && key' == p'.key
    ensures next.GoOn? ==> |frontend.incoming| < |old(frontend.incoming)| && conversation' == p'.conversation
    ensures next.GoOn? ==> Running(crypto, who, p') && AllSent(p', frontend, client, start)
    ensures !next.GoOn? ==> Ended(crypto, who, o, p', frontend, start)
    ensures !next.GoOn? && o.Authenticated? ==> client.sends == start.client.next + |p'.toClient|
  {
    var r := frontend.Receive();
    conversation', key', p' := conversation, key, p;
    if !r.Got? {
      return if r.Closed? then HungUp else Waiting, Fail, conversation', key', p';
    }
    assert (p.got + [r.msg]) + frontend.incoming == p.got + ([r.msg] + frontend.incoming);
    o, next, conversation', p' := Respond(frontend, client, who, crypto, r.msg, conversation, p, start);
    key' := if r.msg.BackendKeyData? then Some(r.msg.key) else key;
  }

  /** The switch of the loop, carried out. */
  method Respond(frontend: BackendWire, client: ClientWire, who: Credentials, crypto: Crypto, msg: BackendMsg,
                 conversation: Option<nat>, ghost p: Progress, ghost start: Start)
    returns (o: Outcome, next: Verdict, conversation': Option<nat>, ghost p': Progress)
    requires (forall h :: client.react(h) == []) && (forall h :: frontend.react(h) == [])
    requires Tracks(p.(got := p.got + [msg]), frontend, client, start)
    requires Running(crypto, who, p) && AllSent(p, frontend, client, start) && conversation == p.conversation
    modifies frontend, client
    ensures Tracks(p', frontend, client, start) && frontend.incoming == old(frontend.incoming)
    ensures p'.key == (if msg.BackendKeyData? then Some(msg.key) else p.key) && p'.conversation == conversation'
    ensures next.GoOn? ==> Running(crypto, who, p') && AllSent(p', frontend, client, start)
    ensures !next.GoOn? ==> Ran(crypto, who, o, p', start.client, start.backend) && !OutOfMessages(o)
    ensures !next.GoOn? && o.Authenticated? ==> client.sends == start.client.next + |p'.toClient|
  {
    var reaction := React(crypto, who, conversation, msg);
    ReactionOk(crypto, who, conversation, msg);
    var ok := CarryOut(frontend, client, reaction, msg);
    OneMore(crypto, who, p, msg, ok, start.client, start.backend);
    Grouped(start.clientDelivered, p.toClient, if ok && reaction.forward then [msg] else []);
    Grouped(start.delivered, p.toBackend, if ok then Listed(reaction.reply) else []);
    p' := Add(p, msg, reaction, ok);
    conversation' := reaction.conversation;
    o, next := EndOf(reaction, ok), if ok then reaction.verdict else Fail;
  }

  // ----- What the loop refuses, and what it answers -----

  /** The library's first message, and the conversation it begins. */
  function Begun(crypto: Crypto, who: Credentials): Option<(nat, string)> {
    match crypto.newConversation(who.username, who.password)
    case None => None
    case Some(c) => crypto.step(c, "")
  }

  /** The conversation the library has had with a backend that said this. */
  function Talk(crypto: Crypto, who: Credentials, got: seq<BackendMsg>): Option<nat> {
    if got == [] then None
    else
      var before, msg := Talk(crypto, who, got[..|got| - 1]), got[|got| - 1];
      if msg.AuthenticationSASL? then
        if Begun(crypto, who).Some? then Some(Begun(crypto, who).value.0) else None
      else if msg.AuthenticationSASLContinue? || msg.AuthenticationSASLFinal? then
        if before.Some? && crypto.step(before.value, msg.data).Some?
        then Some(crypto.step(before.value, msg.data).value.0)
        else None
      else before
  }

  /** The messages that make the loop fail: an error, a SASL offer without SCRAM-SHA-256, a SASL message
      outside a conversation, and a message the library cannot take. */
  predicate Refusable(crypto: Crypto, who: Credentials, before: seq<BackendMsg>, msg: BackendMsg) {
    || msg.ErrorResponse?
    || (msg.AuthenticationSASL? && ("SCRAM-SHA-256" !in msg.mechanisms || Begun(crypto, who).None?))
    || ((msg.AuthenticationSASLContinue? || msg.AuthenticationSASLFinal?) &&
         (Talk(crypto, who, before).None? || crypto.step(Talk(crypto, who, before).value, msg.data).None?))
  }

  /** The loop goes on past exactly the messages that are not one of those, and no ReadyForQuery. */
  lemma {:induction false} GoesOnExactly(crypto: Crypto, who: Credentials, got: seq<BackendMsg>)
    ensures GoesOn(crypto, who, got) <==>
      forall i :: 0 <= i < |got| ==> !got[i].ReadyForQuery? && !Refusable(crypto, who, got[..i], got[i])
    ensures GoesOn(crypto, who, got) ==> Conversation(crypto, who, got) == Talk(crypto, who, got)
  {
    if got != [] {
      var init, msg := got[..|got| - 1], got[|got| - 1];
      GoesOnExactly(crypto, who, init);
      NoneRefused(crypto, who, init, msg);
      assert got == init + [msg];
      if GoesOn(crypto, who, init) {
        VerdictExactly(crypto, who, init, msg);
      }
    }
  }

  lemma NoneRefused(crypto: Crypto, who: Credentials, init: seq<BackendMsg>, msg: BackendMsg)
    ensures var got := init + [msg];
      (forall i :: 0 <= i < |got| ==> !got[i].ReadyForQuery? && !Refusable(crypto, who, got[..i], got[i])) <==>
        && (forall i :: 0 <= i < |init| ==> !init[i].ReadyForQuery? && !Refusable(crypto, who, init[..i], init[i]))
        && !msg.ReadyForQuery? && !Refusable(crypto, who, init, msg)
  {
    var got := init + [msg];
    assert got[..|init|] == init && got[|init|] == msg;
    assert forall i :: 0 <= i < |init| ==> got[..i] == init[..i] && got[i] == init[i];
  }

  lemma VerdictExactly(crypto: Crypto, who: Credentials, before: seq<BackendMsg>, msg: BackendMsg)
    requires Conversation(crypto, who, before) == Talk(crypto, who, before)
    ensures var r := ReactTo(crypto, who, before + [msg]);
      && (r.verdict.Fail? <==> Refusable(crypto, who, before, msg))
      && (r.verdict.Succeed? <==> msg.ReadyForQuery?)
      && (r.verdict.GoOn? ==> r.conversation == Talk(crypto, who, before + [msg]))
  {
    var got := before + [msg];
    assert got[..|got| - 1] == before && got[|got| - 1] == msg;
    OfferExactly(crypto, who, Talk(crypto, who, before), msg);
    ChallengeExactly(crypto, who, Talk(crypto, who, before), msg);
    OtherExactly(crypto, who, Talk(crypto, who, before), msg);
  }

  lemma OfferExactly(crypto: Crypto, who: Credentials, talk: Option<nat>, msg: BackendMsg)
    ensures var r := React(crypto, who, talk, msg);
      msg.AuthenticationSASL? ==>
        && (r.verdict.Fail? <==> "SCRAM-SHA-256" !in msg.mechanisms || Begun(crypto, who).None?)
        && !r.verdict.Succeed?
        && (r.verdict.GoOn? ==> r.conversation == Some(Begun(crypto, who).value.0))
  {
  }

  lemma ChallengeExactly(crypto: Crypto, who: Credentials, talk: Option<nat>, msg: BackendMsg)
    ensures var r := React(crypto, who, talk, msg);
      msg.AuthenticationSASLContinue? || msg.AuthenticationSASLFinal? ==>
        && (r.verdict.Fail? <==> talk.None? || crypto.step(talk.value, msg.data).None?)
        && !r.verdict.Succeed?
        && (r.verdict.GoOn? ==> r.conversation == Some(crypto.step(talk.value, msg.data).value.0))
  {
  }

  lemma OtherExactly(crypto: Crypto, who: Credentials, talk: Option<nat>, msg: BackendMsg)
    ensures var r := React(crypto, who, talk, msg);
      !msg.AuthenticationSASL? && !msg.AuthenticationSASLContinue? && !msg.AuthenticationSASLFinal? ==>
        && (r.verdict.Fail? <==> msg.ErrorResponse?) && (r.verdict.Succeed? <==> msg.ReadyForQuery?)
        && r.conversation == talk
  {
  }

  /** What the loop answers to a message it goes on past. */
  lemma ReplyIs(crypto: Crypto, who: Credentials, before: seq<BackendMsg>, msg: BackendMsg)
    requires GoesOn(crypto, who, before + [msg])
    ensures var replies, earlier := Responses(crypto, who, before + [msg]), Responses(crypto, who, before);
      match msg
      case AuthenticationCleartextPassword => replies == earlier + [PasswordMessage(who.password)]
      case AuthenticationMD5Password(salt) =>
        replies == earlier + [PasswordMessage(crypto.md5(who.username, who.password, salt))]
      case AuthenticationSASL(_) =>
        && Begun(crypto, who).Some?
        && replies == earlier + [SASLInitialResponse("SCRAM-SHA-256", Begun(crypto, who).value.1)]
      case AuthenticationSASLContinue(data) =>
        && Talk(crypto, who, before).Some? && crypto.step(Talk(crypto, who, before).value, data).Some?
        && replies == earlier + [SASLResponse(crypto.step(Talk(crypto, who, before).value, data).value.1)]
      case _ => replies == earlier
  {
    var got := before + [msg];
    assert got[..|got| - 1] == before && got[|got| - 1] == msg;
    GoesOnExactly(crypto, who, before);
    assert Responses(crypto, who, got) == Responses(crypto, who, before) + Listed(ReactTo(crypto, who, got).reply);
  }

  lemma {:induction false} NoMoreThanOneEach(crypto: Crypto, who: Credentials, got: seq<BackendMsg>)
    ensures |Forwarded(got)| <= |got| && |Responses(crypto, who, got)| <= |got|
  {
    if got != [] {
      NoMoreThanOneEach(crypto, who, got[..|got| - 1]);
    }
  }

  /** A backend that keeps to the protocol is logged in at, if the library can follow it and the sends
      succeed. */
  lemma ConformingLogsIn(crypto: Crypto, who: Credentials, script: seq<BackendMsg>, client: Sender, backend: Sender)
    requires Conforming(script)
    requires forall i :: 0 <= i < |script| && script[i].AuthenticationSASL? ==>
      "SCRAM-SHA-256" in script[i].mechanisms && Begun(crypto, who).Some?
    requires forall i ::
      0 <= i < |script| && (script[i].AuthenticationSASLContinue? || script[i].AuthenticationSASLFinal?) ==>
        && Talk(crypto, who, script[..i]).Some?
        && crypto.step(Talk(crypto, who, script[..i]).value, script[i].data).Some?
    requires Delivers(client, |script|) && Delivers(backend, |script|)
    ensures LogsIn(crypto, who, script, client, backend)
  {
    var n := |script| - 1;
    var init := script[..n];
    ConformingIsAccepted(script);
    forall i | 0 <= i < n ensures !init[i].ReadyForQuery? && !Refusable(crypto, who, init[..i], init[i]) {
      assert init[i] == script[i] && init[..i] == script[..i];
    }
    GoesOnExactly(crypto, who, init);
    NoMoreThanOneEach(crypto, who, init);
    assert GetsReady(crypto, who, script, n, client, backend);
  }

  /** What such scripts are: challenges, AuthenticationOk, then parameters, the key and notices in any order, a
      key among them, and ReadyForQuery. */
  lemma ConformingIs(script: seq<BackendMsg>)
    ensures Conforming(script) <==> exists pre: seq<BackendMsg>, post: seq<BackendMsg>, tx ::
      && script == pre + [AuthenticationOk] + post + [ReadyForQuery(tx)]
      && (forall m :: m in pre ==>
           || m.AuthenticationCleartextPassword? || m.AuthenticationMD5Password?
           || m.AuthenticationSASL? || m.AuthenticationSASLContinue? || m.AuthenticationSASLFinal?)
      && (forall m :: m in post ==> m.ParameterStatus? || m.BackendKeyData? || m.OtherBackend?)
      && (exists m :: m in post && m.BackendKeyData?)
  {
    assert forall m :: Handshake(m) <==>
      || m.AuthenticationCleartextPassword? || m.AuthenticationMD5Password?
      || m.AuthenticationSASL? || m.AuthenticationSASLContinue? || m.AuthenticationSASLFinal?;
    assert forall m :: AfterOk(m) <==> m.ParameterStatus? || m.BackendKeyData? || m.OtherBackend?;
  }

  /** It says no error, and ReadyForQuery last of all. */
  lemma ConformingIsAccepted(script: seq<BackendMsg>)
    requires Conforming(script)
    ensures |script| > 0 && script[|script| - 1].ReadyForQuery?
    ensures forall i :: 0 <= i < |script| - 1 ==> !script[i].ReadyForQuery? && !script[i].ErrorResponse?
  {
    var pre, post, tx :| script == pre + [AuthenticationOk] + post + [ReadyForQuery(tx)]
      && (forall m :: m in pre ==> Handshake(m)) && (forall m :: m in post ==> AfterOk(m))
      && (exists m :: m in post && m.BackendKeyData?);
    forall i | 0 <= i < |script| - 1 ensures !script[i].ReadyForQuery? && !script[i].ErrorResponse? {
      if i < |pre| {
        assert script[i] == pre[i] && Handshake(pre[i]);
      } else if i > |pre| {
        assert script[i] == post[i - |pre| - 1] && AfterOk(post[i - |pre| - 1]);
      }
    }
  }

  /** The loop ends by refusing a message exactly if it has read one it refuses and sent what it had to. */
  lemma RefusesExactly(crypto: Crypto, who: Credentials, o: Outcome, p: Progress, client: Sender, backend: Sender)
    requires Ran(crypto, who, o, p, client, backend) && p.got != []
    ensures var n := |p.got| - 1;
      && (o.Refused? ==> Refusable(crypto, who, p.got[..n], p.got[n]))
      && (Refusable(crypto, who, p.got[..n], p.got[n]) ==> o.Refused? || o.SendFailed?)
  {
    var n := |p.got| - 1;
    var before, msg := p.got[..n], p.got[n];
    assert p.got == before + [msg];
    GoesOnExactly(crypto, who, p.got);
    GoesOnExactly(crypto, who, before);
    VerdictExactly(crypto, who, before, msg);
  }

  // ----- When a login succeeds -----

  /** The script has its first ReadyForQuery at `n`, nothing before it makes the loop fail, and neither
      does a send. */
  predicate GetsReady(crypto: Crypto, who: Credentials, script: seq<BackendMsg>, n: nat, client: Sender,
                      backend: Sender) {
    && n < |script| && script[n].ReadyForQuery? && GoesOn(crypto, who, script[..n])
    && Delivers(client, |Forwarded(script[..n])|) && Delivers(backend, |Responses(crypto, who, script[..n])|)
  }

  ghost predicate LogsIn(crypto: Crypto, who: Credentials, script: seq<BackendMsg>, client: Sender, backend: Sender) {
    exists n: nat :: GetsReady(crypto, who, script, n, client, backend)
  }

  lemma AuthenticatedExactly(crypto: Crypto, who: Credentials, script: seq<BackendMsg>, rest: seq<BackendMsg>,
                             o: Outcome, p: Progress, client: Sender, backend: Sender)
    requires Ran(crypto, who, o, p, client, backend) && script == p.got + rest
    requires OutOfMessages(o) ==> rest == []
    ensures o.Authenticated? <==> LogsIn(crypto, who, script, client, backend)
  {
    if o.Authenticated? {
      var n := |p.got| - 1;
      assert script[..n] == p.got[..n];
      ReactionOk(crypto, who, Conversation(crypto, who, p.got[..n]), p.got[n]);
      assert Responses(crypto, who, p.got) == Responses(crypto, who, p.got[..n]) + [];
      assert GetsReady(crypto, who, script, n, client, backend);
    } else {
      forall n: nat ensures !GetsReady(crypto, who, script, n, client, backend) {
        NoWayThrough(crypto, who, script, rest, o, p, client, backend, n);
      }
    }
  }

  lemma NoWayThrough(crypto: Crypto, who: Credentials, script: seq<BackendMsg>, rest: seq<BackendMsg>, o: Outcome,
                     p: Progress, client: Sender, backend: Sender, n: nat)
    requires Ran(crypto, who, o, p, client, backend) && script == p.got + rest && !o.Authenticated?
    requires OutOfMessages(o) ==> rest == []
    ensures !GetsReady(crypto, who, script, n, client, backend)
  {
    if GetsReady(crypto, who, script, n, client, backend) {
      var stop := if OutOfMessages(o) then |p.got| else |p.got| - 1;
      assert script[..stop] == p.got[..stop];
      assert p.got[..|p.got|] == p.got;
      assert n < stop ==> script[n] in script[..stop];
      SucceedsAtFirstReady(crypto, who, script[..stop]);
      if n >= stop {
        NotThroughTheEnd(crypto, who, script, o, p, client, backend, n);
      }
    }
  }

  /** The loop would have had to go on past the message it ended at. */
  lemma NotThroughTheEnd(crypto: Crypto, who: Credentials, script: seq<BackendMsg>, o: Outcome, p: Progress,
                         client: Sender, backend: Sender, n: nat)
    requires Ran(crypto, who, o, p, client, backend) && p.got <= script && (o.Refused? || o.SendFailed?)
    requires |p.got| - 1 <= n
    ensures !GetsReady(crypto, who, script, n, client, backend)
  {
    var m := |p.got| - 1;
    ReactionOk(crypto, who, Conversation(crypto, who, p.got[..m]), p.got[m]);
    if n > m && GetsReady(crypto, who, script, n, client, backend) {
      assert script[..n][..m + 1] == p.got;
      GoesOnPrefix(crypto, who, script[..n], m + 1);
    }
  }

  /** The script lets the loop go on to its end, and so do the sends. */
  predicate Starves(crypto: Crypto, who: Credentials, script: seq<BackendMsg>, client: Sender, backend: Sender) {
    && GoesOn(crypto, who, script)
    && Delivers(client, |Forwarded(script)|) && Delivers(backend, |Responses(crypto, who, script)|)
  }

  lemma OutOfMessagesExactly(crypto: Crypto, who: Credentials, script: seq<BackendMsg>, rest: seq<BackendMsg>,
                             o: Outcome, p: Progress, client: Sender, backend: Sender)
    requires Ran(crypto, who, o, p, client, backend) && script == p.got + rest
    requires OutOfMessages(o) ==> rest == []
    ensures OutOfMessages(o) <==> Starves(crypto, who, script, client, backend)
  {
    if OutOfMessages(o) {
      assert script == p.got;
    } else {
      var m := |p.got| - 1;
      assert script[..m + 1] == p.got;
      ReactionOk(crypto, who, Conversation(crypto, who, p.got[..m]), p.got[m]);
      if GoesOn(crypto, who, script) {
        GoesOnPrefix(crypto, who, script, m + 1);
      }
    }
  }

  /** A longer run of the loop has gone on through, sent and answered at least what a shorter one has. */
  lemma {:induction false} GoesOnPrefix(crypto: Crypto, who: Credentials, got: seq<BackendMsg>, n: nat)
    requires n <= |got| && GoesOn(crypto, who, got)
    ensures GoesOn(crypto, who, got[..n])
    ensures |Forwarded(got[..n])| <= |Forwarded(got)|
    ensures |Responses(crypto, who, got[..n])| <= |Responses(crypto, who, got)|
    decreases |got|
  {
    if n == |got| {
      assert got[..n] == got;
    } else {
      assert got[..|got| - 1][..n] == got[..n];
      GoesOnPrefix(crypto, who, got[..|got| - 1], n);
    }
  }

  // ----- For every backend -----

  /** The temporary connection's key and ReadyForQuery never go to the client, nor does any challenge. */
  lemma {:induction false} OnlyTheseReachTheClient(got: seq<BackendMsg>)
    ensures forall m :: m in Forwarded(got) ==> Passes(m)
    ensures forall m :: m in Forwarded(got) ==> m in got
  {
    if got != [] {
      OnlyTheseReachTheClient(got[..|got| - 1]);
    }
  }

  /** The loop goes on past neither an error nor a ReadyForQuery: it succeeds at the first one. */
  lemma {:induction false} SucceedsAtFirstReady(crypto: Crypto, who: Credentials, got: seq<BackendMsg>)
    requires GoesOn(crypto, who, got)
    ensures forall m :: m in got ==> !m.ReadyForQuery? && !m.ErrorResponse?
  {
    if got != [] {
      SucceedsAtFirstReady(crypto, who, got[..|got| - 1]);
    }
  }

  predicate Challenge(msg: BackendMsg) {
    msg.AuthenticationCleartextPassword? || msg.AuthenticationMD5Password? || msg.AuthenticationSASL?
    || msg.AuthenticationSASLContinue?
  }

  function Challenges(got: seq<BackendMsg>): seq<BackendMsg> {
    if got == [] then []
    else Challenges(got[..|got| - 1]) + if Challenge(got[|got| - 1]) then [got[|got| - 1]] else []
  }

  predicate Answers(crypto: Crypto, who: Credentials, challenge: BackendMsg, reply: FrontendMsg) {
    match challenge
    case AuthenticationCleartextPassword => reply == PasswordMessage(who.password)
    case AuthenticationMD5Password(salt) => reply == PasswordMessage(crypto.md5(who.username, who.password, salt))
    case AuthenticationSASL(mechanisms) => reply.SASLInitialResponse? && reply.mechanism == SCRAM && SCRAM in mechanisms
    case AuthenticationSASLContinue(_) => reply.SASLResponse?
    case _ => false
  }

  /** Exactly one reply to each challenge, of its kind and in order, and none to anything else. */
  lemma {:induction false} OneReplyPerChallenge(crypto: Crypto, who: Credentials, got: seq<BackendMsg>)
    requires GoesOn(crypto, who, got)
    ensures |Responses(crypto, who, got)| == |Challenges(got)|
    ensures forall i :: 0 <= i < |Challenges(got)| ==>
      Answers(crypto, who, Challenges(got)[i], Responses(crypto, who, got)[i])
  {
    if got != [] {
      OneReplyPerChallenge(crypto, who, got[..|got| - 1]);
    }
  }

  /** There is a conversation only after SCRAM-SHA-256 was advertised and begun. */
  lemma {:induction false} ConversationWasBegun(crypto: Crypto, who: Credentials, got: seq<BackendMsg>)
    requires GoesOn(crypto, who, got)
    ensures Conversation(crypto, who, got).Some? ==>
      exists j :: 0 <= j < |Challenges(got)| && Challenges(got)[j].AuthenticationSASL?
  {
    if got != [] {
      var init := got[..|got| - 1];
      ConversationWasBegun(crypto, who, init);
      if Conversation(crypto, who, got).Some? {
        if got[|got| - 1].AuthenticationSASL? {
          assert Challenges(got)[|Challenges(init)|] == got[|got| - 1];
        } else {
          assert Conversation(crypto, who, init).Some?;
          var j :| 0 <= j < |Challenges(init)| && Challenges(init)[j].AuthenticationSASL?;
          assert Challenges(got)[j].AuthenticationSASL?;
        }
      }
    }
  }

  predicate Begins(challenge: BackendMsg, reply: FrontendMsg) {
    && reply.SASLInitialResponse? && reply.mechanism == SCRAM
    && challenge.AuthenticationSASL? && SCRAM in challenge.mechanisms
  }

  /** A SASLResponse is only ever sent after an initial response for SCRAM-SHA-256, to a backend that
      advertised it. */
  lemma {:induction false} ResponseFollowsInitialResponse(crypto: Crypto, who: Credentials, got: seq<BackendMsg>,
                                                          i: nat)
    requires GoesOn(crypto, who, got) && i < |Responses(crypto, who, got)|
    requires Responses(crypto, who, got)[i].SASLResponse?
    ensures |Challenges(got)| == |Responses(crypto, who, got)|
    ensures exists j :: 0 <= j < i && Begins(Challenges(got)[j], Responses(crypto, who, got)[j])
    decreases |got|
  {
    var init := got[..|got| - 1];
    OneReplyPerChallenge(crypto, who, got);
    OneReplyPerChallenge(crypto, who, init);
    if i < |Responses(crypto, who, init)| {
      ResponseFollowsInitialResponse(crypto, who, init, i);
      var j :| 0 <= j < i && Challenges(init)[j].AuthenticationSASL?;
      assert Challenges(got)[j] == Challenges(init)[j];
      assert Answers(crypto, who, Challenges(got)[j], Responses(crypto, who, got)[j]);
    } else {
      assert Conversation(crypto, who, init).Some?;
      ConversationWasBegun(crypto, who, init);
      var j :| 0 <= j < |Challenges(init)| && Challenges(init)[j].AuthenticationSASL?;
      assert Challenges(got)[j] == Challenges(init)[j];
      assert Answers(crypto, who, Challenges(got)[j], Responses(crypto, who, got)[j]);
    }
  }

  // ----- For a conforming backend -----

  predicate Handshake(msg: BackendMsg) {
    Challenge(msg) || msg.AuthenticationSASLFinal?
  }

  predicate AfterOk(msg: BackendMsg) {
    msg.ParameterStatus? || msg.BackendKeyData? || msg.OtherBackend?
  }

  /** Section 55.2.1 (Start-up) of the PostgreSQL 16 documentation: challenges, AuthenticationOk, then
      parameters, the key and notices in any order, then ReadyForQuery. */
  ghost predicate Conforming(got: seq<BackendMsg>) {
    exists pre: seq<BackendMsg>, post: seq<BackendMsg>, tx ::
      && got == pre + [AuthenticationOk] + post + [ReadyForQuery(tx)]
      && (forall m :: m in pre ==> Handshake(m))
      && (forall m :: m in post ==> AfterOk(m))
      && (exists m :: m in post && m.BackendKeyData?)
  }

  /** What such a backend may have said at any moment: part of that, or part of it and then an error. */
  ghost predicate ConformingSoFar(got: seq<BackendMsg>) {
    exists whole :: Conforming(whole) && SaysPartOf(got, whole)
  }

  predicate SaysPartOf(got: seq<BackendMsg>, whole: seq<BackendMsg>) {
    got <= whole || (got != [] && got[|got| - 1].ErrorResponse? && got[..|got| - 1] <= whole)
  }

  lemma PartOfPart(got: seq<BackendMsg>, script: seq<BackendMsg>)
    requires got <= script && ConformingSoFar(script)
    ensures ConformingSoFar(got)
  {
    var whole :| Conforming(whole) && SaysPartOf(script, whole);
    assert SaysPartOf(got, whole);
  }

  lemma ForwardedPrefix(a: seq<BackendMsg>, b: seq<BackendMsg>)
    requires a <= b
    ensures Forwarded(a) <= Forwarded(b)
  {
    assert b == a + b[|a|..];
    ForwardedAppend(a, b[|a|..]);
  }

  /** Its ReadyForQuery is the last it says. */
  lemma ReadyIsTheEnd(got: seq<BackendMsg>, whole: seq<BackendMsg>)
    requires Conforming(whole) && SaysPartOf(got, whole) && got != [] && got[|got| - 1].ReadyForQuery?
    ensures got == whole
  {
    ConformingIsAccepted(whole);
  }

  lemma {:induction false} ForwardedAppend(a: seq<BackendMsg>, b: seq<BackendMsg>)
    ensures Forwarded(a + b) == Forwarded(a) + Forwarded(b)
  {
    if b == [] {
      assert a + b == a;
    } else {
      assert (a + b)[..|a + b| - 1] == a + b[..|b| - 1];
      ForwardedAppend(a, b[..|b| - 1]);
    }
  }

  lemma {:induction false} LastKeyOf(got: seq<BackendMsg>)
    ensures LastKey(got).Some? <==> exists m :: m in got && m.BackendKeyData?
    ensures LastKey(got).Some? ==> BackendKeyData(LastKey(got).value) in got
  {
    if got != [] {
      LastKeyOf(got[..|got| - 1]);
      assert got == got[..|got| - 1] + [got[|got| - 1]];
    }
  }

  /** Then the client sees AuthenticationOk and the parameters, and there is a key to return. */
  lemma ConformingBackend(got: seq<BackendMsg>)
    requires Conforming(got)
    ensures LastKey(got).Some?
    ensures Forwarded(got) != [] && Forwarded(got)[0].AuthenticationOk?
    ensures forall m :: m in Forwarded(got)[1..] ==> m.ParameterStatus?
  {
    var pre, post, tx :| got == pre + [AuthenticationOk] + post + [ReadyForQuery(tx)]
      && (forall m :: m in pre ==> Handshake(m)) && (forall m :: m in post ==> AfterOk(m))
      && (exists m :: m in post && m.BackendKeyData?);
    var key :| key in post && key.BackendKeyData?;
    assert key in got;
    LastKeyOf(got);
    ForwardedOfParts(pre, post, tx);
    OnlyTheseReachTheClient(post);
    forall m | m in Forwarded(got)[1..] ensures m.ParameterStatus? {
      assert m in Forwarded(post);
      assert AfterOk(m) && Passes(m);
    }
  }

  lemma ForwardedOfParts(pre: seq<BackendMsg>, post: seq<BackendMsg>, tx: Tx)
    requires forall m :: m in pre ==> Handshake(m)
    ensures Forwarded(pre + [AuthenticationOk] + post + [ReadyForQuery(tx)]) == [AuthenticationOk] + Forwarded(post)
  {
    ForwardedAppend(pre + [AuthenticationOk] + post, [ReadyForQuery(tx)]);
    ForwardedAppend(pre + [AuthenticationOk], post);
    ForwardedAppend(pre, [AuthenticationOk]);
    ForwardedOne(AuthenticationOk);
    ForwardedOne(ReadyForQuery(tx));
    HandshakeForwardsNothing(pre);
  }

  lemma ForwardedOne(m: BackendMsg)
    ensures Forwarded([m]) == if Passes(m) then [m] else []
  {
    assert [m][..0] == [];
  }

  lemma {:induction false} HandshakeForwardsNothing(pre: seq<BackendMsg>)
    requires forall m :: m in pre ==> Handshake(m)
    ensures Forwarded(pre) == []
  {
    if pre != [] {
      HandshakeForwardsNothing(pre[..|pre| - 1]);
      assert Handshake(pre[|pre| - 1]);
    }
  }
}
