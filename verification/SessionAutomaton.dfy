/** One proxy session as the sequence of its externally visible steps, in the order of
    handleConnection and its deferred cleanup (internal/proxy/connection.go) and of
    handleStartupMessage (internal/proxy/startup.go). Module Connection proves that the code's own
    steps always follow this automaton; module ProxySystem runs any number of these sessions. */
module SessionAutomaton {
  import opened Options
  import opened CancelKeys

  /** Pools are kept per client user and database. */
  datatype PoolKey = PoolKey(user: string, database: string)

  datatype Phase =
    | Starting       // negotiating TLS, authenticating on a temporary backend connection
    | Connecting     // authenticated; about to take a connection from the pool
    | Pinging        // holds a pooled connection that has not yet answered the ping
    | Publishing     // pinned; sending the key and ReadyForQuery to the client
    | Looping        // registered, waiting for a client message
    | Relaying       // a message was forwarded and its ReadyForQuery has not come back
    | Closing        // left for good: the deferred cleanup starts
    | Resetting
    | Releasing
    | Unregistering
    | Done

  /** `checking` is a pooled connection not yet pinged; `poolConn` and `key` are the fields of
      Connection, neither of which is cleared by the cleanup. */
  datatype Session = Session(phase: Phase, key: Option<Key>, poolConn: Option<Key>, checking: Option<Key>)

  const STARTED := Session(Starting, None, None, None)

  datatype Act =
    | AuthDone(temp: Key)
    | StartupFail
    | LookUp(asked: Key, found: Option<Sid>)
    | ConnectFail
    | Acquire(pool: PoolKey, conn: Key, isNew: bool)
    | PingFail(conn: Key, destroyed: bool)
    | Pin(conn: Key)
    | PublishFail
    | Register(conn: Key)
    | Forward
    | RelayOther
    | RelayReady
    | Leave
    | SendFail(conn: Key)
    | LeaveMid(conn: Key)
    | CloseClient
    | Reset(conn: Key, ok: bool)
    | Release(conn: Key, destroyed: bool)
    | Unregister(conn: Key)

  predicate Enabled(se: Session, act: Act) {
    match act
    case AuthDone(_) => se.phase.Starting?
    case StartupFail => se.phase.Starting?
    case LookUp(_, _) => se.phase.Starting?
    case ConnectFail => se.phase.Connecting?
    case Acquire(_, _, _) => se.phase.Connecting?
    case PingFail(conn, _) => se.phase.Pinging? && se.checking == Some(conn)
    case Pin(conn) => se.phase.Pinging? && se.checking == Some(conn)
    case PublishFail => se.phase.Publishing?
    case Register(conn) => se.phase.Publishing? && se.key == Some(conn)
    case Forward => se.phase.Looping?
    case RelayOther => se.phase.Relaying?
    case RelayReady => se.phase.Relaying?
    case Leave => se.phase.Looping?
    case SendFail(conn) => se.phase.Looping? && se.poolConn == Some(conn)
    case LeaveMid(conn) => se.phase.Relaying? && se.poolConn == Some(conn)
    case CloseClient => se.phase.Closing?
    case Reset(conn, _) => se.phase.Resetting? && se.poolConn == Some(conn)
    case Release(conn, _) => se.phase.Releasing? && se.poolConn == Some(conn)
    case Unregister(conn) => se.phase.Unregistering? && se.key == Some(conn)
  }

  function Next(se: Session, act: Act): Session
    requires Enabled(se, act)
  {
    match act
    case AuthDone(temp) => se.(phase := Connecting, key := Some(temp))
    case StartupFail => se.(phase := Closing)
    case LookUp(_, _) => se.(phase := Closing)
    case ConnectFail => se.(phase := Closing)
    case Acquire(_, conn, _) => se.(phase := Pinging, checking := Some(conn))
    case PingFail(_, _) => se.(phase := Closing, checking := None)
    case Pin(conn) => Session(Publishing, Some(conn), Some(conn), None)
    case PublishFail => se.(phase := Closing)
    case Register(_) => se.(phase := Looping)
    case Forward => se.(phase := Relaying)
    case RelayOther => se
    case RelayReady => se.(phase := Looping)
    case Leave => se.(phase := Closing)
    case SendFail(_) => se.(phase := Closing)
    case LeaveMid(_) => se.(phase := Closing)
    case CloseClient =>
      se.(phase := if se.poolConn.Some? then Resetting else if se.key.Some? then Unregistering else Done)
    case Reset(_, _) => se.(phase := Releasing)
    case Release(_, _) => se.(phase := if se.key.Some? then Unregistering else Done)
    case Unregister(_) => se.(phase := Done)
  }

  /** The pooled connection the session has taken and not given back. */
  function Held(se: Session): Option<Key> {
    if se.checking.Some? then se.checking
    else if se.phase.Unregistering? || se.phase.Done? then None
    else se.poolConn
  }

  predicate InLoop(se: Session) {
    se.phase.Looping? || se.phase.Relaying?
  }

  /** Between Release and unregister: the connection may already be someone else's. */
  predicate InWindow(se: Session, conn: Key) {
    se.phase.Unregistering? && se.poolConn == Some(conn)
  }

  /** What the phase says about the fields. */
  predicate WellFormed(se: Session) {
    && (se.checking.Some? <==> se.phase.Pinging?)
    && (se.poolConn.Some? ==> se.key == se.poolConn)
    && (se.phase.Starting? ==> se.key.None? && se.poolConn.None?)
    && (se.phase.Connecting? || se.phase.Pinging? ==> se.key.Some? && se.poolConn.None?)
    && (InLoop(se) || se.phase.Publishing? || se.phase.Resetting? || se.phase.Releasing? ==> se.poolConn.Some?)
    && (se.phase.Unregistering? ==> se.key.Some?)
  }

  lemma NextWellFormed(se: Session, act: Act)
    requires WellFormed(se) && Enabled(se, act)
    ensures WellFormed(Next(se, act))
  {
  }

  /** The steps follow the automaton from `se` and end in `last`. */
  ghost predicate Follows(se: Session, acts: seq<Act>, last: Session)
    decreases |acts|
  {
    if acts == [] then se == last
    else Enabled(se, acts[0]) && Follows(Next(se, acts[0]), acts[1..], last)
  }

  lemma {:induction false} FollowsAppend(se: Session, acts: seq<Act>, mid: Session, more: seq<Act>, last: Session)
    requires Follows(se, acts, mid) && Follows(mid, more, last)
    ensures Follows(se, acts + more, last)
    decreases |acts|
  {
    if acts == [] {
      assert acts + more == more;
    } else {
      assert (acts + more)[1..] == acts[1..] + more;
      FollowsAppend(Next(se, acts[0]), acts[1..], mid, more, last);
    }
  }

  /** The keys a session publishes, gives back or withdraws. */
  predicate Uses(act: Act, k: Key) {
    match act
    case Register(conn) => conn == k
    case Reset(conn, _) => conn == k
    case Release(conn, _) => conn == k
    case Unregister(conn) => conn == k
    case Pin(conn) => conn == k
    case SendFail(conn) => conn == k
    case LeaveMid(conn) => conn == k
    case _ => true
  }

  /** Once pinned, a session publishes, resets, releases and unregisters its pinned connection's key
      and no other. */
  lemma {:induction false} PinnedKeyOnly(se: Session, acts: seq<Act>, last: Session, k: Key)
    requires Follows(se, acts, last) && WellFormed(se)
    requires se.poolConn == Some(k) && !se.phase.Done?
    ensures forall i :: 0 <= i < |acts| ==> Uses(acts[i], k)
    ensures last.poolConn == Some(k)
    decreases |acts|
  {
    if acts != [] {
      var next := Next(se, acts[0]);
      if next.phase.Done? {
        DoneDoesNothing(next, acts[1..], last);
      } else {
        PinnedKeyOnly(next, acts[1..], last, k);
      }
      assert forall i :: 1 <= i < |acts| ==> acts[i] == acts[1..][i - 1];
    }
  }

  lemma DoneDoesNothing(se: Session, acts: seq<Act>, last: Session)
    requires Follows(se, acts, last) && se.phase.Done?
    ensures acts == [] && last == se
  {
  }

  /** Over a whole session, the key registered, the key released and the key unregistered are the same:
      that of the pooled connection, never the authentication leg's. */
  lemma {:induction false} OneKeyPerSession(se: Session, acts: seq<Act>, last: Session, i: int, k: Key)
    requires Follows(se, acts, last) && WellFormed(se) && se.poolConn.None?
    requires 0 <= i < |acts| && acts[i] == Act.Register(k)
    ensures exists p :: 0 <= p < i && acts[p] == Pin(k) && forall j :: p <= j < |acts| ==> Uses(acts[j], k)
    ensures last.poolConn == Some(k)
    decreases |acts|
  {
    var next := Next(se, acts[0]);
    var rest := acts[1..];
    assert forall j :: 1 <= j < |acts| ==> acts[j] == rest[j - 1];
    if acts[0].Pin? {
      PinnedKeyOnly(next, rest, last, acts[0].conn);
      assert Uses(rest[i - 1], acts[0].conn);
    } else {
      OneKeyPerSession(next, rest, last, i - 1, k);
      var p :| 0 <= p < i - 1 && rest[p] == Pin(k) && forall j :: p <= j < |rest| ==> Uses(rest[j], k);
      assert acts[p + 1] == Pin(k);
      forall j | p + 1 <= j < |acts| ensures Uses(acts[j], k) {
        assert Uses(rest[j - 1], k);
      }
    }
  }
}
