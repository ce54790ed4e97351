/** What the sessions of the proxy may do next, in any state a run can reach: no step that the code can
    take is missing from the runs that ProxyTheorems speaks of. */
module ProxySteps {
  import opened Options
  import opened CancelKeys
  import opened PooledBackend
  import opened ProxySystem
  import opened ProxyInvariant
  import A = SessionAutomaton

  ghost predicate May(run: seq<Event>, s: Sid, act: A.Act, answer: Backend) {
    Valid(run + [Does(s, act, answer)])
  }

  ghost predicate InPhase(run: seq<Event>, s: Sid, phase: A.Phase) {
    Valid(run) && s in After(run).sessions && After(run).sessions[s].phase == phase
  }

  /** From its ping to its release a session holds a connection, which is there. */
  lemma Holding(run: seq<Event>, s: Sid) returns (k: Key)
    requires Valid(run) && s in After(run).sessions
    requires var se := After(run).sessions[s];
      || A.InLoop(se) || se.phase.Pinging? || se.phase.Publishing? || se.phase.Resetting? || se.phase.Releasing?
    ensures HeldBy(After(run), s) == Some(k) && k in After(run).conns
    ensures var se := After(run).sessions[s];
      if se.phase.Pinging? then se.checking == Some(k) else se.poolConn == se.key == Some(k)
  {
    InvAlways(run);
    k := HeldBy(After(run), s).value;
  }

  lemma MayIfEnabled(run: seq<Event>, s: Sid, act: A.Act, answer: Backend)
    requires Valid(run)
    ensures May(run, s, act, answer) <==> Enabled(After(run), Does(s, act, answer))
  {
    var longer := run + [Does(s, act, answer)];
    assert longer[..|longer| - 1] == run && Last(longer) == Does(s, act, answer);
  }

  /** Any number of clients can connect. */
  lemma AnyoneConnects(run: seq<Event>, s: Sid)
    requires Valid(run) && s !in After(run).sessions
    ensures Valid(run + [Accept(s)]) && InPhase(run + [Accept(s)], s, A.Starting)
  {
    var longer := run + [Accept(s)];
    assert longer[..|longer| - 1] == run && Last(longer) == Accept(s);
  }

  /** The authentication leg can be given any pair that no connection had; the startup can fail; a cancel
      request finds exactly what is registered under its pair. */
  lemma WhileStarting(run: seq<Event>, s: Sid, k: Key, any: Backend)
    requires InPhase(run, s, A.Starting)
    ensures k !in After(run).temps && k !in After(run).pooled ==> May(run, s, A.AuthDone(k), any)
    ensures May(run, s, A.StartupFail, any)
    ensures May(run, s, A.LookUp(k, None), any) <==> k !in After(run).registry
    ensures forall t ::
      May(run, s, A.LookUp(k, Some(t)), any) <==> k in After(run).registry && After(run).registry[k] == t
  {
    MayIfEnabled(run, s, A.AuthDone(k), any);
    MayIfEnabled(run, s, A.StartupFail, any);
    MayIfEnabled(run, s, A.LookUp(k, None), any);
    forall t ensures May(run, s, A.LookUp(k, Some(t)), any) <==>
        k in After(run).registry && After(run).registry[k] == t
    {
      MayIfEnabled(run, s, A.LookUp(k, Some(t)), any);
    }
  }

  /** A session takes a waiting connection of any pool, or a new one while fewer than five are there. */
  lemma WhileConnecting(run: seq<Event>, s: Sid, pool: A.PoolKey, k: Key, any: Backend)
    requires InPhase(run, s, A.Connecting)
    ensures May(run, s, A.ConnectFail, any)
    ensures var st := After(run);
      && (May(run, s, A.Acquire(pool, k, false), any) <==> pool in st.pools && k in st.pools[pool].idle)
      && (May(run, s, A.Acquire(pool, k, true), any) <==>
           && k !in st.temps && k !in st.pooled
           && (pool in st.pools ==> |st.pools[pool].idle| + st.pools[pool].acquired < 5))
  {
    MayIfEnabled(run, s, A.ConnectFail, any);
    MayIfEnabled(run, s, A.Acquire(pool, k, false), any);
    MayIfEnabled(run, s, A.Acquire(pool, k, true), any);
  }

  /** The connection acquired is pinned if it answers the ping; the ping can always fail. */
  lemma WhilePinging(run: seq<Event>, s: Sid, any: Backend) returns (k: Key)
    requires InPhase(run, s, A.Pinging)
    ensures HeldBy(After(run), s) == Some(k) && k in After(run).conns
    ensures May(run, s, A.PingFail(k, true), any)
    ensures var b := After(run).conns[k].backend;
      && (May(run, s, A.Pin(k), any) <==> Exec(b, Ping, false).1)
      && (May(run, s, A.PingFail(k, false), any) <==> !b.broken && !Exec(b, Ping, false).1)
  {
    k := Holding(run, s);
    MayIfEnabled(run, s, A.PingFail(k, true), any);
    MayIfEnabled(run, s, A.PingFail(k, false), any);
    MayIfEnabled(run, s, A.Pin(k), any);
  }

  /** The key it registers is that of the connection it holds. */
  lemma WhilePublishing(run: seq<Event>, s: Sid, any: Backend) returns (k: Key)
    requires InPhase(run, s, A.Publishing)
    ensures HeldBy(After(run), s) == Some(k) && k in After(run).conns
    ensures May(run, s, A.PublishFail, any) && May(run, s, A.Register(k), any)
  {
    k := Holding(run, s);
    MayIfEnabled(run, s, A.PublishFail, any);
    MayIfEnabled(run, s, A.Register(k), any);
  }

  /** Between messages the client can leave; or a send fails, and the connection is then in any state. */
  lemma WhileLooping(run: seq<Event>, s: Sid, any: Backend) returns (k: Key)
    requires InPhase(run, s, A.Looping)
    ensures HeldBy(After(run), s) == Some(k) && k in After(run).conns
    ensures May(run, s, A.Leave, any) && May(run, s, A.SendFail(k), any)
  {
    k := Holding(run, s);
    MayIfEnabled(run, s, A.Leave, any);
    MayIfEnabled(run, s, A.SendFail(k), any);
  }

  /** Or a message is forwarded, and answered with any replies of which only the last is a ReadyForQuery, and any
      change to the transaction and the session. */
  lemma WhileForwarding(run: seq<Event>, s: Sid, replies: seq<Reply>, any: Backend) returns (k: Key)
    requires InPhase(run, s, A.Looping)
    ensures HeldBy(After(run), s) == Some(k) && k in After(run).conns
    ensures var b := After(run).conns[k].backend;
      (forall i :: 0 <= i < |replies| - 1 ==> !replies[i].Ready?) ==>
        May(run, s, A.Forward, Backend(b.unread + replies, any.tx, any.session, any.saved, b.broken))
  {
    k := WhileLooping(run, s, any);
    var b := After(run).conns[k].backend;
    var answer := Backend(b.unread + replies, any.tx, any.session, any.saved, b.broken);
    MayIfEnabled(run, s, A.Forward, answer);
    if forall i :: 0 <= i < |replies| - 1 ==> !replies[i].Ready? {
      AnsweredBy(b, replies, any);
    }
  }

  lemma AnsweredBy(b: Backend, replies: seq<Reply>, any: Backend)
    requires forall i :: 0 <= i < |replies| - 1 ==> !replies[i].Ready?
    ensures Answered(b, Backend(b.unread + replies, any.tx, any.session, any.saved, b.broken))
  {
    var unread := b.unread + replies;
    assert unread[..|b.unread|] == b.unread && unread[|b.unread|..] == replies;
  }

  /** While a message is being answered the next reply is passed on, and a ReadyForQuery ends the answer. */
  lemma WhileRelaying(run: seq<Event>, s: Sid, any: Backend) returns (k: Key)
    requires InPhase(run, s, A.Relaying)
    ensures HeldBy(After(run), s) == Some(k) && k in After(run).conns
    ensures var b := After(run).conns[k].backend;
      && (May(run, s, A.RelayReady, any) <==> b.unread != [] && b.unread[0].Ready?)
      && (May(run, s, A.RelayOther, any) <==> b.unread != [] && !b.unread[0].Ready?)
  {
    k := Holding(run, s);
    MayIfEnabled(run, s, A.RelayReady, any);
    MayIfEnabled(run, s, A.RelayOther, any);
  }

  /** Or the client is lost before or after the reply is read, or the backend is lost. */
  lemma WhileBreakingOff(run: seq<Event>, s: Sid, any: Backend) returns (k: Key)
    requires InPhase(run, s, A.Relaying)
    ensures HeldBy(After(run), s) == Some(k) && k in After(run).conns
    ensures var b := After(run).conns[k].backend;
      && May(run, s, A.LeaveMid(k), b) && (any.broken ==> May(run, s, A.LeaveMid(k), any))
      && (b.unread != [] ==> May(run, s, A.LeaveMid(k), b.(unread := b.unread[1..])))
  {
    k := Holding(run, s);
    var b := After(run).conns[k].backend;
    MayIfEnabled(run, s, A.LeaveMid(k), b);
    MayIfEnabled(run, s, A.LeaveMid(k), any);
    if b.unread != [] {
      MayIfEnabled(run, s, A.LeaveMid(k), b.(unread := b.unread[1..]));
    }
  }

  /** The cleanup goes through whatever happened before it: the client is closed, ... */
  lemma WhileClosing(run: seq<Event>, s: Sid, any: Backend)
    requires InPhase(run, s, A.Closing)
    ensures May(run, s, A.CloseClient, any)
  {
    MayIfEnabled(run, s, A.CloseClient, any);
  }

  /** ... each of the reset's commands is written or not, ... */
  lemma WhileResetting(run: seq<Event>, s: Sid, io1: bool, io2: bool) returns (k: Key)
    requires InPhase(run, s, A.Resetting)
    ensures HeldBy(After(run), s) == Some(k) && k in After(run).conns
    ensures var b := After(run).conns[k].backend;
      var first := Exec(b, Rollback, io1);
      if !first.1 then May(run, s, A.Reset(k, false), first.0)
      else May(run, s, A.Reset(k, Exec(first.0, DiscardAll, io2).1), Exec(first.0, DiscardAll, io2).0)
  {
    k := Holding(run, s);
    var b := After(run).conns[k].backend;
    MayIfEnabled(run, s, A.Reset(k, ResetRun(b, io1, io2).1), ResetRun(b, io1, io2).0);
  }

  /** ... the pool destroys the connection or, unless it is broken, keeps it, ... */
  lemma WhileReleasing(run: seq<Event>, s: Sid, any: Backend) returns (k: Key)
    requires InPhase(run, s, A.Releasing)
    ensures HeldBy(After(run), s) == Some(k) && k in After(run).conns
    ensures May(run, s, A.Release(k, true), any)
    ensures May(run, s, A.Release(k, false), any) <==> !After(run).conns[k].backend.broken
  {
    k := Holding(run, s);
    MayIfEnabled(run, s, A.Release(k, true), any);
    MayIfEnabled(run, s, A.Release(k, false), any);
  }

  /** ... and the session's key is withdrawn. */
  lemma WhileUnregistering(run: seq<Event>, s: Sid, any: Backend) returns (k: Key)
    requires InPhase(run, s, A.Unregistering)
    ensures After(run).sessions[s].key == Some(k) && May(run, s, A.Unregister(k), any)
  {
    InvAlways(run);
    k := After(run).sessions[s].key.value;
    MayIfEnabled(run, s, A.Unregister(k), any);
  }

  lemma StepAfter(run: seq<Event>, s: Sid, act: A.Act, answer: Backend)
    requires Valid(run) && May(run, s, act, answer)
    ensures Enabled(After(run), Does(s, act, answer))
    ensures After(run + [Does(s, act, answer)]) == Step(After(run), Does(s, act, answer))
  {
    MayIfEnabled(run, s, act, answer);
    var longer := run + [Does(s, act, answer)];
    assert longer[..|longer| - 1] == run && Last(longer) == Does(s, act, answer);
  }

  /** A new connection has nothing unread, no transaction and no trace of a session; one that waited is taken
      from its pool as it was. */
  lemma WhatIsTaken(run: seq<Event>, s: Sid, pool: A.PoolKey, k: Key, isNew: bool, any: Backend)
    requires Valid(run) && May(run, s, A.Acquire(pool, k, isNew), any)
    ensures var st, later := After(run), After(run + [Does(s, A.Acquire(pool, k, isNew), any)]);
      && HeldBy(later, s) == Some(k) && pool in later.pools && k !in later.pools[pool].idle
      && k in later.conns && later.conns[k].pool == pool
      && (isNew ==> later.conns[k].backend == Backend([], Idle, 0, 0, false))
      && (!isNew ==> k in st.conns && later.conns[k] == st.conns[k])
  {
    InvAlways(run);
    StepAfter(run, s, A.Acquire(pool, k, isNew), any);
    HeldAfter(After(run), Does(s, A.Acquire(pool, k, isNew), any), s);
  }

  /** What is given back waits in the pool it came from as it is, unless it is destroyed. */
  lemma WhatIsGivenBack(run: seq<Event>, s: Sid, k: Key, destroyed: bool, any: Backend)
    requires Valid(run) && May(run, s, A.Release(k, destroyed), any)
    ensures var st, later := After(run), After(run + [Does(s, A.Release(k, destroyed), any)]);
      && HeldBy(later, s) == None && k in st.conns
      && (k in later.conns <==> !destroyed)
      && (!destroyed ==> later.conns[k] == st.conns[k])
      && var pool := st.conns[k].pool;
         pool in later.pools && (k in later.pools[pool].idle <==> !destroyed)
  {
    InvAlways(run);
    StepAfter(run, s, A.Release(k, destroyed), any);
    HeldAfter(After(run), Does(s, A.Release(k, destroyed), any), s);
  }

  /** A reply that is passed on is no longer unread. */
  lemma WhatIsPassedOn(run: seq<Event>, s: Sid, k: Key, ready: bool, any: Backend)
    requires Valid(run) && HeldBy(After(run), s) == Some(k)
    requires May(run, s, if ready then A.RelayReady else A.RelayOther, any)
    ensures var st, later := After(run), After(run + [Does(s, if ready then A.RelayReady else A.RelayOther, any)]);
      && k in st.conns && st.conns[k].backend.unread != []
      && later.conns == st.conns[k := st.conns[k].(backend := st.conns[k].backend.(
                                      unread := st.conns[k].backend.unread[1..]))]
  {
    StepAfter(run, s, if ready then A.RelayReady else A.RelayOther, any);
  }

  /** The pool can close any connection that waits in it, and no other. */
  lemma IdleExpires(run: seq<Event>, pool: A.PoolKey, k: Key)
    requires Valid(run)
    ensures var longer := run + [Expire(pool, k)];
      && (Valid(longer) <==> pool in After(run).pools && k in After(run).pools[pool].idle)
      && (Valid(longer) ==>
           && k !in After(longer).conns && pool in After(longer).pools && k !in After(longer).pools[pool].idle
           && After(longer).sessions == After(run).sessions && After(longer).registry == After(run).registry)
  {
    var longer := run + [Expire(pool, k)];
    assert longer[..|longer| - 1] == run && Last(longer) == Expire(pool, k);
  }
}
