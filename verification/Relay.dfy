/** The lockstep relay of the query loop (internal/proxy/message.go). */
module Relay {
  import opened Wire

  /** The number of ReadyForQuerys among the messages. */
  function Readies(msgs: seq<BackendMsg>): nat {
    if msgs == [] then 0 else Readies(msgs[..|msgs| - 1]) + if msgs[|msgs| - 1].ReadyForQuery? then 1 else 0
  }

  /** Why the query loop is where it is: at its head again, out with an error, or in a receive that
      never returns. */
  datatype Outcome =
    | AtHead
    | ClientGone
    | Terminated
    | BackendSendFailed
    | BackendGone
    | ClientSendFailed
    | WaitsForClient
    | WaitsForBackend

  /** Everything the backend sends in answer to `msgs`, having received `before` already. */
  function Replies(react: seq<FrontendMsg> -> seq<BackendMsg>, before: seq<FrontendMsg>,
                   msgs: seq<FrontendMsg>): seq<BackendMsg> {
    if msgs == [] then [] else Replies(react, before, msgs[..|msgs| - 1]) + react(before + msgs)
  }

  /** A stretch of the query loop: what was read from the client and is still to be read, what of it
      reached the backend, and the same for the other direction. */
  datatype Stretch = Stretch(
    taken: seq<FrontendMsg>, pending: seq<FrontendMsg>, forwarded: seq<FrontendMsg>,
    received: seq<BackendMsg>, unread: seq<BackendMsg>, relayed: seq<BackendMsg>)

  predicate InsideRelay(o: Outcome) {
    o.BackendGone? || o.ClientSendFailed? || o.WaitsForBackend?
  }

  /** The relay is in lockstep. The backend has a prefix of what the client sent, with no Terminate in
      it, and the client a prefix of what the backend sent: nothing lost, doubled or reordered. One
      ReadyForQuery has come back for each message forwarded, but for the last one while inside the
      relay. What was read and not passed on is one message at most, and only when the loop ended. */
  predicate Lockstep(s: Stretch, o: Outcome) {
    && s.forwarded <= s.taken && Terminate !in s.forwarded
    && s.relayed <= s.received
    && |s.forwarded| == Readies(s.relayed) + (if InsideRelay(o) then 1 else 0)
    && (!InsideRelay(o) && s.relayed != [] ==> s.relayed[|s.relayed| - 1].ReadyForQuery?)
    && |s.taken| == |s.forwarded| + (if o.Terminated? || o.BackendSendFailed? then 1 else 0)
    && |s.received| == |s.relayed| + (if o.ClientSendFailed? then 1 else 0)
    && (o.Terminated? ==> s.taken[|s.taken| - 1] == Terminate)
    && (o.ClientGone? || o.WaitsForClient? ==> s.pending == [])
    && (o.BackendGone? || o.WaitsForBackend? ==> s.unread == [])
  }

  /** Nothing is forwarded before its turn: of what the backend had said up to then (`initial` before
      the loop, and its replies), as many ReadyForQuerys had come back as messages had gone out. */
  ghost predicate Paced(react: seq<FrontendMsg> -> seq<BackendMsg>, before: seq<FrontendMsg>,
                        initial: seq<BackendMsg>, forwarded: seq<FrontendMsg>) {
    forall i :: 0 <= i < |forwarded| ==> i <= Readies(initial + Replies(react, before, forwarded[..i]))
  }

  lemma {:induction false} ReadiesAppend(a: seq<BackendMsg>, b: seq<BackendMsg>)
    ensures Readies(a + b) == Readies(a) + Readies(b)
  {
    if b == [] {
      assert a + b == a;
    } else {
      assert (a + b)[..|a + b| - 1] == a + b[..|b| - 1];
      ReadiesAppend(a, b[..|b| - 1]);
    }
  }

  datatype Start = Start(
    clientRead: seq<FrontendMsg>, clientDelivered: seq<BackendMsg>,
    backendRead: seq<BackendMsg>, backendDelivered: seq<FrontendMsg>)

  ghost function Here(client: ClientWire, bf: BackendWire): Start
    reads client, bf
  {
    Start(client.read, client.delivered, bf.read, bf.delivered)
  }

  /** The two wires are where the stretch says, having been at `start` when it began. */
  ghost predicate Tracks(s: Stretch, client: ClientWire, bf: BackendWire, start: Start)
    reads client, bf
  {
    && client.read == start.clientRead + s.taken && client.incoming == s.pending
    && client.delivered == start.clientDelivered + s.relayed
    && bf.read == start.backendRead + s.received && bf.incoming == s.unread
    && bf.delivered == start.backendDelivered + s.forwarded
  }

  /** A client whose messages are a given script: it does not react to what it is sent. */
  ghost predicate Scripted(client: ClientWire) {
    forall d :: client.react(d) == []
  }

  /** What an outcome says of the wires: who hung up or has no more to say, or that the last send failed. */
  predicate Cause(o: Outcome, clientCloses: bool, client: Sender, backendCloses: bool, backend: Sender) {
    && (o.WaitsForClient? ==> !clientCloses)
    && (o.ClientGone? ==> clientCloses)
    && (o.WaitsForBackend? ==> !backendCloses)
    && (o.BackendGone? ==> backendCloses)
    && (o.ClientSendFailed? ==> client.next > 0 && !client.ok(client.next - 1))
    && (o.BackendSendFailed? ==> backend.next > 0 && !backend.ok(backend.next - 1))
  }

  ghost predicate WhyItEnded(o: Outcome, client: ClientWire, bf: BackendWire)
    reads client, bf
  {
    Cause(o, client.closes, client.Sending(), bf.closes, bf.Sending())
  }

  /** A message has just been forwarded and nothing of its answer read. */
  predicate JustForwarded(s: Stretch) {
    && s.taken == s.forwarded && Terminate !in s.forwarded && s.received == s.relayed
    && |s.forwarded| == Readies(s.relayed) + 1
  }

  /** A backend message read, and passed on if `ok`. */
  function Read(s: Stretch, msg: BackendMsg, ok: bool): Stretch
    requires s.unread != []
  {
    s.(received := s.received + [msg], unread := s.unread[1..], relayed := if ok then s.relayed + [msg] else s.relayed)
  }

  lemma ReadInLockstep(s: Stretch, ok: bool)
    requires JustForwarded(s) && s.unread != []
    ensures var s' := Read(s, s.unread[0], ok);
      && s'.received + s'.unread == s.received + s.unread
      && (!ok ==> Lockstep(s', ClientSendFailed))
      && (ok && s.unread[0].ReadyForQuery? ==> Lockstep(s', AtHead))
      && (ok && !s.unread[0].ReadyForQuery? ==> JustForwarded(s'))
  {
    var msg := s.unread[0];
    assert s.unread == [msg] + s.unread[1..];
    assert (s.relayed + [msg])[..|s.relayed|] == s.relayed;
  }

  /** One turn of the relay loop; `done` when the loop is left. */
  method RelayOne(client: ClientWire, bf: BackendWire, ghost s: Stretch, ghost start: Start)
    returns (o: Outcome, done: bool, ghost s': Stretch)
    requires JustForwarded(s) && Tracks(s, client, bf, start) && Scripted(client)
    modifies client, bf
    ensures Tracks(s', client, bf, start)
    ensures if done then Lockstep(s', o) else JustForwarded(s') && |bf.incoming| < |old(bf.incoming)|
    ensures s'.taken == s.taken && s'.pending == s.pending && s'.forwarded == s.forwarded
    ensures s'.received + s'.unread == s.received + s.unread
    ensures (o.AtHead? || InsideRelay(o)) && WhyItEnded(o, client, bf)
  {
    var r := bf.Receive();
    s' := s;
    if !r.Got? {
      o := if r.Closed? then BackendGone else WaitsForBackend;
      return o, true, s';
    }
    var ok := client.Send(r.msg);
    ReadInLockstep(s, ok);
    Grouped(start.backendRead, s.received, [r.msg]);
    Grouped(start.clientDelivered, s.relayed, [r.msg]);
    s' := Read(s, r.msg, ok);
    o := if ok then AtHead else ClientSendFailed;
    done := !ok || r.msg.ReadyForQuery?;
  }

  /** relayBackendResponse: passes on what the backend says, up to a ReadyForQuery. */
  method RelayBackendResponse(client: ClientWire, bf: BackendWire, ghost s: Stretch, ghost start: Start)
    returns (o: Outcome, ghost s': Stretch)
    requires JustForwarded(s) && Tracks(s, client, bf, start) && Scripted(client)
    modifies client, bf
    ensures Tracks(s', client, bf, start) && Lockstep(s', o)
    ensures s'.taken == s.taken && s'.pending == s.pending && s'.forwarded == s.forwarded
    ensures s'.received + s'.unread == s.received + s.unread
    ensures (o.AtHead? || InsideRelay(o)) && WhyItEnded(o, client, bf)
  {
    var done := false;
    o, s' := AtHead, s;
    while !done
      invariant Tracks(s', client, bf, start) && WhyItEnded(o, client, bf)
      invariant if done then Lockstep(s', o) else JustForwarded(s')
      invariant s'.taken == s.taken && s'.pending == s.pending && s'.forwarded == s.forwarded
      invariant s'.received + s'.unread == s.received + s.unread
      invariant o.AtHead? || InsideRelay(o)
      decreases !done, |bf.incoming|
    {
      o, done, s' := RelayOne(client, bf, s', start);
    }
  }

  /** bf.Send(msg) in handleMessage. */
  method Forward(msg: FrontendMsg, client: ClientWire, bf: BackendWire, ghost s: Stretch, ghost start: Start)
    returns (ok: bool, ghost s': Stretch)
    requires s.taken == s.forwarded + [msg] && Terminate !in s.taken
    requires s.received == s.relayed && |s.forwarded| == Readies(s.relayed) && Tracks(s, client, bf, start)
    modifies bf
    ensures Tracks(s', client, bf, start)
    ensures ok ==> JustForwarded(s')
    ensures !ok ==> s' == s && bf.sends > 0 && !bf.sendOk(bf.sends - 1)
    ensures s'.taken == s.taken && s'.pending == s.pending && s'.received == s.received
    ensures ok ==> s'.forwarded == s.taken
    ensures ok ==> s'.unread == s.unread + Replies(bf.react, start.backendDelivered + s.forwarded, [msg])
  {
    ok := bf.Send(msg);
    s' := s;
    if ok {
      RepliesToOne(bf.react, start.backendDelivered + s.forwarded, msg);
      Grouped(start.backendDelivered, s.forwarded, [msg]);
      s' := s.(forwarded := s.taken, unread := s.unread + bf.react(bf.delivered));
      assert bf.delivered == start.backendDelivered + s.forwarded + [msg];
    }
  }

  /** The rest of handleMessage. */
  method ForwardAndRelay(msg: FrontendMsg, client: ClientWire, bf: BackendWire, ghost s: Stretch, ghost start: Start)
    returns (o: Outcome, ghost s': Stretch)
    requires s.taken == s.forwarded + [msg] && !msg.Terminate? && Scripted(client)
    requires Lockstep(s.(taken := s.forwarded), AtHead) && Tracks(s, client, bf, start)
    modifies client, bf
    ensures Tracks(s', client, bf, start) && Lockstep(s', o)
    ensures s'.taken == s.taken && s'.pending == s.pending
    ensures Moved(bf.react, start.backendDelivered, s, s')
    ensures WhyItEnded(o, client, bf)
  {
    var ok;
    ok, s' := Forward(msg, client, bf, s, start);
    OneForwarded(bf.react, start.backendDelivered, s, msg, s', ok);
    if !ok {
      return BackendSendFailed, s';
    }
    ghost var forwarded := s';
    o, s' := RelayBackendResponse(client, bf, s', start);
    MovedAndRelayed(bf.react, start.backendDelivered, s, forwarded, s');
  }

  /** At most one message more was forwarded, and its replies are what the backend said more. */
  predicate Moved(react: seq<FrontendMsg> -> seq<BackendMsg>, before: seq<FrontendMsg>, s: Stretch, s': Stretch) {
    && s.forwarded <= s'.forwarded && |s'.forwarded| <= |s.forwarded| + 1
    && s'.received + s'.unread ==
         s.received + s.unread + Replies(react, before + s.forwarded, s'.forwarded[|s.forwarded|..])
  }

  lemma OneForwarded(react: seq<FrontendMsg> -> seq<BackendMsg>, before: seq<FrontendMsg>, s: Stretch, msg: FrontendMsg,
                     s': Stretch, sent: bool)
    requires s'.received == s.received && s'.forwarded == if sent then s.forwarded + [msg] else s.forwarded
    requires s'.unread == s.unread + if sent then Replies(react, before + s.forwarded, [msg]) else []
    ensures Moved(react, before, s, s')
  {
    assert s'.forwarded[|s.forwarded|..] == if sent then [msg] else [];
  }

  lemma MovedAndRelayed(react: seq<FrontendMsg> -> seq<BackendMsg>, before: seq<FrontendMsg>, s: Stretch, mid: Stretch,
                        s': Stretch)
    requires Moved(react, before, s, mid)
    requires s'.forwarded == mid.forwarded && s'.received + s'.unread == mid.received + mid.unread
    ensures Moved(react, before, s, s')
  {
  }

  /** handleMessage: one message of the client, and all the backend says up to its ReadyForQuery. */
  method HandleMessage(client: ClientWire, bf: BackendWire, ghost s: Stretch, ghost start: Start)
    returns (o: Outcome, ghost s': Stretch)
    requires Lockstep(s, AtHead) && Tracks(s, client, bf, start) && Scripted(client)
    modifies client, bf
    ensures Tracks(s', client, bf, start) && Lockstep(s', o)
    ensures s'.taken + s'.pending == s.taken + s.pending && Moved(bf.react, start.backendDelivered, s, s')
    ensures o.AtHead? ==> |client.incoming| < |old(client.incoming)|
    ensures WhyItEnded(o, client, bf)
  {
    var msg;
    msg, o, s' := NextMessage(client, bf, s, start);
    if o.AtHead? {
      o, s' := ForwardAndRelay(msg, client, bf, s', start);
    }
  }

  /** client.Receive() in handleMessage, and what it does with a Terminate. */
  method NextMessage(client: ClientWire, bf: BackendWire, ghost s: Stretch, ghost start: Start)
    returns (msg: FrontendMsg, o: Outcome, ghost s': Stretch)
    requires Lockstep(s, AtHead) && Tracks(s, client, bf, start)
    modifies client
    ensures Tracks(s', client, bf, start)
    ensures s'.taken + s'.pending == s.taken + s.pending
    ensures s' == s.(taken := s'.taken, pending := s'.pending)
    ensures Moved(bf.react, start.backendDelivered, s, s')
    ensures if o.AtHead? then
              && !msg.Terminate? && s'.taken == s'.forwarded + [msg] && |s'.pending| < |s.pending|
              && Lockstep(s'.(taken := s'.forwarded), AtHead)
            else Lockstep(s', o) && (o.ClientGone? || o.WaitsForClient? || o.Terminated?)
    ensures WhyItEnded(o, client, bf)
  {
    var r := client.Receive();
    s' := s;
    OneForwarded(bf.react, start.backendDelivered, s, Sync, s, false);
    if !r.Got? {
      return Sync, if r.Closed? then ClientGone else WaitsForClient, s';
    }
    assert s.pending == [r.msg] + s.pending[1..];
    Grouped(s.taken, [r.msg], s.pending[1..]);
    Grouped(start.clientRead, s.taken, [r.msg]);
    s' := s.(taken := s.taken + [r.msg], pending := s.pending[1..]);
    msg, o := r.msg, if r.msg.Terminate? then Terminated else AtHead;
  }

  /** What a stretch beginning at the loop's start has behind it and before it. */
  ghost predicate Accounts(react: seq<FrontendMsg> -> seq<BackendMsg>, before: seq<FrontendMsg>,
                           initial: seq<BackendMsg>, script: seq<FrontendMsg>, s: Stretch) {
    && s.taken + s.pending == script
    && s.received + s.unread == initial + Replies(react, before, s.forwarded)
    && Paced(react, before, initial, s.forwarded)
  }

  lemma AccountsOn(react: seq<FrontendMsg> -> seq<BackendMsg>, before: seq<FrontendMsg>,
                   initial: seq<BackendMsg>, script: seq<FrontendMsg>, s: Stretch, s': Stretch)
    requires Accounts(react, before, initial, script, s) && Lockstep(s, AtHead)
    requires s'.taken + s'.pending == s.taken + s.pending && Moved(react, before, s, s')
    ensures Accounts(react, before, initial, script, s')
  {
    var more := s'.forwarded[|s.forwarded|..];
    assert s'.forwarded == s.forwarded + more;
    var sofar, next := Replies(react, before, s.forwarded), Replies(react, before + s.forwarded, more);
    assert Replies(react, before, s'.forwarded) == sofar + next by {
      RepliesAppend(react, before, s.forwarded, more);
    }
    assert (initial + sofar) + next == initial + (sofar + next);
    assert Paced(react, before, initial, s'.forwarded) by {
      assert s.received == s.relayed;
      ReadiesAppend(s.received, s.unread);
      PacedOn(react, before, initial, s.forwarded, more);
    }
  }

  /** The query loop, for every client script and every backend: it is in lockstep wherever it stops. */
  method QueryLoop(client: ClientWire, bf: BackendWire) returns (o: Outcome, ghost s: Stretch)
    requires Scripted(client)
    modifies client, bf
    ensures !o.AtHead?
    ensures Accounts(bf.react, old(bf.delivered), old(bf.incoming), old(client.incoming), s)
    ensures Tracks(s, client, bf, old(Here(client, bf))) && Lockstep(s, o)
    ensures WhyItEnded(o, client, bf)
  {
    ghost var start, initial, script := Here(client, bf), bf.incoming, client.incoming;
    s := Stretch([], client.incoming, [], [], bf.incoming, []);
    o := AtHead;
    while true
      invariant Lockstep(s, AtHead) && Tracks(s, client, bf, start)
      invariant Accounts(bf.react, start.backendDelivered, initial, script, s)
      decreases |client.incoming|
    {
      ghost var before := s;
      o, s := HandleMessage(client, bf, s, start);
      AccountsOn(bf.react, start.backendDelivered, initial, script, before, s);
      if o != AtHead {
        return;
      }
    }
  }

  lemma RepliesToOne(react: seq<FrontendMsg> -> seq<BackendMsg>, before: seq<FrontendMsg>, msg: FrontendMsg)
    ensures Replies(react, before, [msg]) == react(before + [msg])
  {
    assert [msg][..0] == [];
    assert Replies(react, before, [msg]) == Replies(react, before, []) + react(before + [msg]);
  }

  lemma {:induction false} RepliesAppend(react: seq<FrontendMsg> -> seq<BackendMsg>, before: seq<FrontendMsg>,
                                         a: seq<FrontendMsg>, b: seq<FrontendMsg>)
    ensures Replies(react, before, a + b) == Replies(react, before, a) + Replies(react, before + a, b)
  {
    if b == [] {
      assert a + b == a;
    } else {
      assert (a + b)[..|a + b| - 1] == a + b[..|b| - 1];
      assert before + (a + b) == before + a + b;
      RepliesAppend(react, before, a, b[..|b| - 1]);
    }
  }

  lemma PacedOn(react: seq<FrontendMsg> -> seq<BackendMsg>, before: seq<FrontendMsg>, initial: seq<BackendMsg>,
                forwarded: seq<FrontendMsg>, more: seq<FrontendMsg>)
    requires Paced(react, before, initial, forwarded) && |more| <= 1
    requires |forwarded| <= Readies(initial + Replies(react, before, forwarded))
    ensures Paced(react, before, initial, forwarded + more)
  {
    forall i | 0 <= i < |forwarded + more|
      ensures i <= Readies(initial + Replies(react, before, (forwarded + more)[..i]))
    {
      if i < |forwarded| {
        assert (forwarded + more)[..i] == forwarded[..i];
      } else {
        assert (forwarded + more)[..i] == forwarded;
      }
    }
  }
}
