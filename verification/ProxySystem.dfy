/** Any number of sessions interleaved over one cancel registry and any number of pools. A run is a
    sequence of events; everything the environment decides is in the event, so the state is a
    function of the run. Backend keys are never reused: a new connection's pair is one that no
    connection had before. */
module ProxySystem {
  import opened Options
  import opened CancelKeys
  import opened PooledBackend
  import A = SessionAutomaton

  const MAX_CONNS := 5

  /** `idle` connections wait in the pool; `acquired` counts those handed out. */
  datatype Pool = Pool(idle: set<Key>, acquired: nat)

  const EMPTY_POOL := Pool({}, 0)

  /** A physical pooled connection: the pool it belongs to and its state. */
  datatype Phys = Phys(pool: A.PoolKey, backend: Backend)

  /** `temps` and `pooled` are all keys ever issued, to authentication legs and to pooled connections. */
  datatype State = State(
    sessions: map<Sid, A.Session>,
    registry: map<Key, Sid>,
    pools: map<A.PoolKey, Pool>,
    conns: map<Key, Phys>,
    temps: set<Key>,
    pooled: set<Key>)

  const INIT := State(map[], map[], map[], map[], {}, {})

  /** `answer` is the backend state the environment chooses where the step does not determine it. */
  datatype Event =
    | Accept(sid: Sid)
    | Does(sid: Sid, act: A.Act, answer: Backend)
    | Expire(pool: A.PoolKey, conn: Key)   // the pool closes an idle connection

  function PoolAt(st: State, pool: A.PoolKey): Pool {
    if pool in st.pools then st.pools[pool] else EMPTY_POOL
  }

  /** What forwarding a Query or Sync may do: any replies, of which only the last is a ReadyForQuery,
      and any change to the transaction and the session. A message that is never answered by a
      ReadyForQuery has replies with none. */
  predicate Answered(b: Backend, answer: Backend) {
    && |b.unread| <= |answer.unread| && answer.unread[..|b.unread|] == b.unread
    && OnlyLastReady(answer.unread[|b.unread|..])
    && answer.broken == b.broken
  }

  predicate OnlyLastReady(q: seq<Reply>) {
    forall i :: 0 <= i < |q| - 1 ==> !q[i].Ready?
  }

  predicate SharedEnabled(st: State, act: A.Act, answer: Backend) {
    match act
    case AuthDone(temp) => temp !in st.temps && temp !in st.pooled
    case LookUp(asked, found) => found == Find(st.registry, asked)
    case Acquire(pool, conn, isNew) =>
      if isNew then
        conn !in st.temps && conn !in st.pooled && |PoolAt(st, pool).idle| + PoolAt(st, pool).acquired < MAX_CONNS
      else conn in PoolAt(st, pool).idle
    case PingFail(conn, destroyed) =>
      && conn in st.conns
      && (destroyed || (!st.conns[conn].backend.broken && !Exec(st.conns[conn].backend, Ping, false).1))
    case Pin(conn) => conn in st.conns && Exec(st.conns[conn].backend, Ping, false).1
    case SendFail(conn) => conn in st.conns
    case LeaveMid(conn) =>
      && conn in st.conns
      && var b := st.conns[conn].backend;
         answer == b || answer.broken || (b.unread != [] && answer == b.(unread := b.unread[1..]))
    case Reset(conn, ok) =>
      && conn in st.conns
      && exists io1, io2 :: ResetRun(st.conns[conn].backend, io1, io2) == (answer, ok)
    case Release(conn, destroyed) => conn in st.conns && (st.conns[conn].backend.broken ==> destroyed)
    case _ => true
  }

  /** Steps on the connection the session holds whose act does not name it. */
  predicate RelayEnabled(st: State, held: Option<Key>, act: A.Act, answer: Backend) {
    act.Forward? || act.RelayOther? || act.RelayReady? ==>
      && held.Some? && held.value in st.conns
      && var b := st.conns[held.value].backend;
         if act.Forward? then Answered(b, answer)
         else b.unread != [] && (act.RelayReady? <==> b.unread[0].Ready?)
  }

  predicate Enabled(st: State, ev: Event) {
    match ev
    case Accept(sid) => sid !in st.sessions
    case Does(sid, act, answer) =>
      && sid in st.sessions
      && A.Enabled(st.sessions[sid], act)
      && SharedEnabled(st, act, answer)
      && RelayEnabled(st, A.Held(st.sessions[sid]), act, answer)
    case Expire(pool, conn) => conn in PoolAt(st, pool).idle
  }

  function NextSessions(st: State, ev: Event): map<Sid, A.Session>
    requires Enabled(st, ev)
  {
    match ev
    case Accept(sid) => st.sessions[sid := A.STARTED]
    case Does(sid, act, _) => st.sessions[sid := A.Next(st.sessions[sid], act)]
    case Expire(_, _) => st.sessions
  }

  function NextRegistry(st: State, ev: Event): map<Key, Sid> {
    if ev.Does? && ev.act.Register? then st.registry[ev.act.conn := ev.sid]
    else if ev.Does? && ev.act.Unregister? then st.registry - {ev.act.conn}
    else st.registry
  }

  /** A pool after one of its connections came back. */
  function Returned(p: Pool, conn: Key, destroyed: bool): Pool {
    Pool(if destroyed then p.idle else p.idle + {conn}, if p.acquired == 0 then 0 else p.acquired - 1)
  }

  function NextPools(st: State, ev: Event): map<A.PoolKey, Pool>
    requires Enabled(st, ev)
  {
    match ev
    case Expire(pool, conn) => st.pools[pool := PoolAt(st, pool).(idle := PoolAt(st, pool).idle - {conn})]
    case Does(_, Acquire(pool, conn, _), _) =>
      var p := PoolAt(st, pool);
      st.pools[pool := Pool(p.idle - {conn}, p.acquired + 1)]
    case Does(_, PingFail(conn, destroyed), _) =>
      var pool := st.conns[conn].pool;
      st.pools[pool := Returned(PoolAt(st, pool), conn, destroyed)]
    case Does(_, Release(conn, destroyed), _) =>
      var pool := st.conns[conn].pool;
      st.pools[pool := Returned(PoolAt(st, pool), conn, destroyed)]
    case _ => st.pools
  }

  function NextConns(st: State, ev: Event): map<Key, Phys>
    requires Enabled(st, ev)
  {
    match ev
    case Expire(_, conn) => st.conns - {conn}
    case Accept(_) => st.conns
    case Does(sid, act, answer) =>
      match act
      case Acquire(pool, conn, isNew) => if isNew then st.conns[conn := Phys(pool, NEW)] else st.conns
      case PingFail(conn, destroyed) =>
        if destroyed then st.conns - {conn}
        else WithBackend(st.conns, conn, Exec(st.conns[conn].backend, Ping, false).0)
      case Pin(conn) => WithBackend(st.conns, conn, Exec(st.conns[conn].backend, Ping, false).0)
      case Forward => WithBackend(st.conns, A.Held(st.sessions[sid]).value, answer)
      case RelayOther => WithBackend(st.conns, A.Held(st.sessions[sid]).value, Read(st, sid))
      case RelayReady => WithBackend(st.conns, A.Held(st.sessions[sid]).value, Read(st, sid))
      case SendFail(conn) => WithBackend(st.conns, conn, answer)
      case LeaveMid(conn) => WithBackend(st.conns, conn, answer)
      case Reset(conn, _) => WithBackend(st.conns, conn, answer)
      case Release(conn, destroyed) => if destroyed then st.conns - {conn} else st.conns
      case _ => st.conns
  }

  function WithBackend(conns: map<Key, Phys>, conn: Key, b: Backend): map<Key, Phys>
    requires conn in conns
  {
    conns[conn := conns[conn].(backend := b)]
  }

  function Read(st: State, sid: Sid): Backend
    requires sid in st.sessions && A.Held(st.sessions[sid]).Some? && A.Held(st.sessions[sid]).value in st.conns
    requires st.conns[A.Held(st.sessions[sid]).value].backend.unread != []
  {
    var b := st.conns[A.Held(st.sessions[sid]).value].backend;
    b.(unread := b.unread[1..])
  }

  function Step(st: State, ev: Event): State
    requires Enabled(st, ev)
  {
    State(
      NextSessions(st, ev),
      NextRegistry(st, ev),
      NextPools(st, ev),
      NextConns(st, ev),
      if ev.Does? && ev.act.AuthDone? then st.temps + {ev.act.temp} else st.temps,
      if ev.Does? && ev.act.Acquire? then st.pooled + {ev.act.conn} else st.pooled)
  }

  /** The state a run leads to, if every event of it can happen. */
  ghost function Reach(run: seq<Event>): Option<State>
    decreases |run|
  {
    if run == [] then Some(INIT)
    else
      var before := Reach(run[..|run| - 1]);
      if before.Some? && Enabled(before.value, run[|run| - 1]) then Some(Step(before.value, run[|run| - 1])) else None
  }

  ghost predicate Valid(run: seq<Event>) {
    Reach(run).Some?
  }

  ghost function After(run: seq<Event>): State
    requires Valid(run)
  {
    Reach(run).value
  }

  /** The last event of a run, and the run before it. */
  function Init(run: seq<Event>): seq<Event>
    requires run != []
  {
    run[..|run| - 1]
  }

  function Last(run: seq<Event>): Event
    requires run != []
  {
    run[|run| - 1]
  }
}
