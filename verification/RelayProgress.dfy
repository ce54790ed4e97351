/** When the lockstep relay gets a session to its end, and when it leaves it waiting. */
module RelayProgress {
  import opened Wire
  import opened Relay

  /** The backend's reply to a message ends in its only ReadyForQuery. */
  predicate Answered(react: seq<FrontendMsg> -> seq<BackendMsg>, before: seq<FrontendMsg>, m: FrontendMsg) {
    var reply := react(before + [m]);
    Readies(reply) == 1 && reply[|reply| - 1].ReadyForQuery?
  }

  /** A backend that answers so, or without any ReadyForQuery. */
  ghost predicate Conforms(react: seq<FrontendMsg> -> seq<BackendMsg>) {
    forall h, m: FrontendMsg :: Answered(react, h, m) || Readies(react(h + [m])) == 0
  }

  ghost predicate AllAnswered(react: seq<FrontendMsg> -> seq<BackendMsg>, before: seq<FrontendMsg>,
                              msgs: seq<FrontendMsg>) {
    forall i :: 0 <= i < |msgs| ==> Answered(react, before + msgs[..i], msgs[i])
  }

  lemma AllAnsweredOneMore(react: seq<FrontendMsg> -> seq<BackendMsg>, before: seq<FrontendMsg>, msgs: seq<FrontendMsg>)
    requires msgs != []
    ensures var n := |msgs| - 1;
      AllAnswered(react, before, msgs) <==>
        AllAnswered(react, before, msgs[..n]) && Answered(react, before + msgs[..n], msgs[n])
  {
    var init := msgs[..|msgs| - 1];
    assert forall i :: 0 <= i < |init| ==> init[..i] == msgs[..i] && init[i] == msgs[i];
  }

  /** The replies hold one ReadyForQuery for each message answered, and end in one if all are. */
  lemma {:induction false} RepliesReadies(react: seq<FrontendMsg> -> seq<BackendMsg>, before: seq<FrontendMsg>,
                                          msgs: seq<FrontendMsg>)
    requires Conforms(react)
    ensures Readies(Replies(react, before, msgs)) <= |msgs|
    ensures Readies(Replies(react, before, msgs)) == |msgs| <==> AllAnswered(react, before, msgs)
    ensures AllAnswered(react, before, msgs) && msgs != [] ==>
      var r := Replies(react, before, msgs); r != [] && r[|r| - 1].ReadyForQuery?
  {
    if msgs != [] {
      var init, last := msgs[..|msgs| - 1], msgs[|msgs| - 1];
      RepliesReadies(react, before, init);
      AllAnsweredOneMore(react, before, msgs);
      assert before + msgs == before + init + [last];
      assert Answered(react, before + init, last) || Readies(react(before + init + [last])) == 0;
      ReadiesAppend(Replies(react, before, init), react(before + msgs));
    }
  }

  lemma ReadiesPrefix(a: seq<BackendMsg>, b: seq<BackendMsg>)
    requires a <= b
    ensures Readies(a) <= Readies(b)
    ensures a != b && b[|b| - 1].ReadyForQuery? ==> Readies(a) < Readies(b)
  {
    var rest := b[|a|..];
    assert b == a + rest;
    ReadiesAppend(a, rest);
  }

  /** The session is inside the relay behind the first message that is not answered: everything up to it
      was forwarded and everything the backend said was passed on, but nothing after it, not even a Sync
      that would make the backend answer, is ever read. */
  ghost predicate StuckBehind(react: seq<FrontendMsg> -> seq<BackendMsg>, before: seq<FrontendMsg>,
                              script: seq<FrontendMsg>, s: Stretch, i: nat) {
    && i < |script| && AllAnswered(react, before, script[..i]) && !Answered(react, before + script[..i], script[i])
    && s.taken == s.forwarded == script[..i + 1] && s.relayed == Replies(react, before, script[..i + 1])
  }

  /** A client that sends any messages and then terminates is served to the end, with exactly the output
      of a direct connection, if the backend answers every one of them; else its session is left inside
      the relay behind the first that is not answered. */
  lemma ServedExactlyIfAnswered(react: seq<FrontendMsg> -> seq<BackendMsg>, before: seq<FrontendMsg>,
                                script: seq<FrontendMsg>, s: Stretch, o: Outcome)
    requires Conforms(react) && Terminate !in script
    requires Accounts(react, before, [], script + [Terminate], s) && Lockstep(s, o)
    requires !o.AtHead? && !o.BackendSendFailed? && !o.ClientSendFailed?
    ensures AllAnswered(react, before, script) <==> o.Terminated?
    ensures o.Terminated? ==> s.forwarded == script && s.relayed == Replies(react, before, script)
    ensures !o.Terminated? ==>
      (o.WaitsForBackend? || o.BackendGone?) && exists i :: StuckBehind(react, before, script, s, i)
  {
    ForwardedFromScript(script, s, o);
    assert [] + Replies(react, before, s.forwarded) == Replies(react, before, s.forwarded);
    if InsideRelay(o) {
      StuckBehindUnanswered(react, before, script, s, o);
    } else {
      ServedToTheEnd(react, before, script, s);
    }
  }

  lemma ServedToTheEnd(react: seq<FrontendMsg> -> seq<BackendMsg>, before: seq<FrontendMsg>,
                       script: seq<FrontendMsg>, s: Stretch)
    requires Conforms(react)
    requires s.received + s.unread == Replies(react, before, script)
    requires s.forwarded == script && Lockstep(s, Terminated)
    ensures AllAnswered(react, before, script) && s.relayed == Replies(react, before, script)
  {
    RepliesReadies(react, before, script);
    assert s.relayed == s.received;
    ReadiesPrefix(s.received, s.received + s.unread);
    if script == [] {
      assert Replies(react, before, script) == [];
    }
  }

  lemma StuckBehindUnanswered(react: seq<FrontendMsg> -> seq<BackendMsg>, before: seq<FrontendMsg>,
                              script: seq<FrontendMsg>, s: Stretch, o: Outcome)
    requires Conforms(react)
    requires |s.forwarded| <= |script| && s.forwarded == script[..|s.forwarded|]
    requires s.received + s.unread == Replies(react, before, s.forwarded)
    requires Lockstep(s, o) && Paced(react, before, [], s.forwarded)
    requires o.WaitsForBackend? || o.BackendGone?
    ensures exists i :: StuckBehind(react, before, script, s, i)
    ensures !AllAnswered(react, before, script)
  {
    var i := |s.forwarded| - 1;
    var init := s.forwarded[..i];
    assert s.received + s.unread == s.received == s.relayed;
    assert [] + Replies(react, before, init) == Replies(react, before, init);
    LastUnanswered(react, before, s.forwarded);
    assert init == script[..i] && s.forwarded[i] == script[i] && s.forwarded == script[..i + 1];
    assert StuckBehind(react, before, script, s, i);
    assert Answered(react, before + script[..i], script[i]) <==> Answered(react, before + init, s.forwarded[i]);
  }

  /** One ReadyForQuery too few, and only the last message can be the one that has none. */
  lemma LastUnanswered(react: seq<FrontendMsg> -> seq<BackendMsg>, before: seq<FrontendMsg>, msgs: seq<FrontendMsg>)
    requires Conforms(react) && msgs != []
    requires Readies(Replies(react, before, msgs)) == |msgs| - 1 <= Readies(Replies(react, before, msgs[..|msgs| - 1]))
    ensures AllAnswered(react, before, msgs[..|msgs| - 1])
    ensures !Answered(react, before + msgs[..|msgs| - 1], msgs[|msgs| - 1])
  {
    RepliesReadies(react, before, msgs[..|msgs| - 1]);
    RepliesReadies(react, before, msgs);
    AllAnsweredOneMore(react, before, msgs);
  }

  /** A session that leaves between messages leaves nothing unread behind it. */
  lemma LeavesNothingUnread(react: seq<FrontendMsg> -> seq<BackendMsg>, before: seq<FrontendMsg>,
                            script: seq<FrontendMsg>, s: Stretch, o: Outcome)
    requires Conforms(react) && Accounts(react, before, [], script, s) && Lockstep(s, o)
    requires o.ClientGone? || o.Terminated? || o.WaitsForClient?
    ensures s.unread == [] && s.relayed == Replies(react, before, s.forwarded)
  {
    var replies := Replies(react, before, s.forwarded);
    assert [] + replies == replies && s.relayed == s.received;
    RepliesReadies(react, before, s.forwarded);
    ReadiesPrefix(s.received, s.received + s.unread);
    if s.forwarded == [] {
      assert replies == [];
    }
  }

  lemma ForwardedFromScript(script: seq<FrontendMsg>, s: Stretch, o: Outcome)
    requires s.taken + s.pending == script + [Terminate] && Terminate !in script
    requires Lockstep(s, o) && !o.BackendSendFailed? && !o.AtHead?
    ensures |s.forwarded| <= |script| && s.forwarded == script[..|s.forwarded|]
    ensures o.Terminated? ==> s.forwarded == script
    ensures o.Terminated? || InsideRelay(o)
  {
    var whole := script + [Terminate];
    assert s.taken == whole[..|s.taken|];
    assert whole[|script|] == Terminate;
    assert |s.forwarded| > |script| ==> s.forwarded == whole;
  }

  // ----- Which messages are answered -----

  predicate Full(m: FrontendMsg) {
    m.Query? || m.Sync?
  }

  predicate Extended(m: FrontendMsg) {
    m.Parse? || m.Bind? || m.Describe? || m.Execute?
  }

  /** Sections 55.2.2 and 55.2.3 of the PostgreSQL 16 documentation: a Query or a Sync is answered, if what
      came before was; the other messages of an extended query are not. */
  ghost predicate SpeaksBothProtocols(react: seq<FrontendMsg> -> seq<BackendMsg>, before: seq<FrontendMsg>) {
    forall msgs, m: FrontendMsg ::
      && (Full(m) && AllAnswered(react, before, msgs) ==> Answered(react, before + msgs, m))
      && (Extended(m) ==> !Answered(react, before + msgs, m))
  }

  /** So Queries and Syncs are all served, and a Parse, Bind, Describe or Execute anywhere is not. */
  lemma {:induction false} AnsweredWithoutExtended(react: seq<FrontendMsg> -> seq<BackendMsg>,
                                                   before: seq<FrontendMsg>, msgs: seq<FrontendMsg>)
    requires SpeaksBothProtocols(react, before)
    ensures (forall m :: m in msgs ==> m.Query? || m.Sync?) ==> AllAnswered(react, before, msgs)
    ensures (exists m :: m in msgs && (m.Parse? || m.Bind? || m.Describe? || m.Execute?)) ==>
      !AllAnswered(react, before, msgs)
  {
    if msgs != [] {
      var init, last := msgs[..|msgs| - 1], msgs[|msgs| - 1];
      assert msgs == init + [last];
      AnsweredWithoutExtended(react, before, init);
      AllAnsweredOneMore(react, before, msgs);
      assert Extended(last) ==> !Answered(react, before + init, last);
    }
  }

  // ----- The loop itself -----

  /** On a connection nothing fails on. */
  method ServeScript(client: ClientWire, bf: BackendWire, ghost script: seq<FrontendMsg>) returns (o: Outcome)
    requires Scripted(client) && client.incoming == script + [Terminate] && Terminate !in script
    requires Conforms(bf.react) && bf.incoming == []
    requires forall n :: client.sendOk(n) && bf.sendOk(n)
    modifies client, bf
    ensures o.Terminated? <==> AllAnswered(bf.react, old(bf.delivered), script)
    ensures o.Terminated? ==>
      && bf.delivered == old(bf.delivered) + script
      && client.delivered == old(client.delivered) + Replies(bf.react, old(bf.delivered), script)
    ensures !o.Terminated? ==>
      && (if bf.closes then o.BackendGone? else o.WaitsForBackend?)
      && exists i :: 0 <= i < |script| && AllAnswered(bf.react, old(bf.delivered), script[..i])
                     && !Answered(bf.react, old(bf.delivered) + script[..i], script[i])
                     && bf.delivered == old(bf.delivered) + script[..i + 1]
                     && client.incoming == script[i + 1..] + [Terminate]
                     && client.delivered ==
                          old(client.delivered) + Replies(bf.react, old(bf.delivered), script[..i + 1])
  {
    ghost var s;
    o, s := QueryLoop(client, bf);
    ServedExactlyIfAnswered(bf.react, old(bf.delivered), script, s, o);
    if !o.Terminated? {
      ghost var i :| StuckBehind(bf.react, old(bf.delivered), script, s, i);
      assert s.pending == (s.taken + s.pending)[i + 1..] == script[i + 1..] + [Terminate];
    }
  }
}
