/** Two runs of the proxy that show what its cleanup leaves open. */
module ProxyWitnesses {
  import opened Options
  import opened CancelKeys
  import opened PooledBackend
  import opened ProxySystem
  import opened ProxyInvariant
  import opened ProxyTheorems
  import A = SessionAutomaton

  lemma Extend(run: seq<Event>, ev: Event) returns (longer: seq<Event>)
    requires Valid(run) && Enabled(After(run), ev)
    ensures longer == run + [ev] && Valid(longer) && After(longer) == Step(After(run), ev)
  {
    longer := run + [ev];
    assert Init(longer) == run;
  }

  predicate Leads(st: State, ev: Event, st': State) {
    Enabled(st, ev) && Step(st, ev) == st'
  }

  /** The only session of one pool, its connection being in the state `b`. */
  function OneSession(phase: A.Phase, b: Backend, pool: A.PoolKey, k: Key, temp: Key): State {
    State(
      map[1 := A.Session(phase, Some(k), Some(k), None)],
      if phase.Publishing? || phase.Done? then map[] else map[k := 1],
      map[pool := if phase.Unregistering? || phase.Done? then Pool({k}, 0) else Pool({}, 1)],
      map[k := Phys(pool, b)], {temp}, {k})
  }

  lemma FirstSessionPublishes(pool: A.PoolKey, k: Key, temp: Key) returns (run: seq<Event>)
    requires k != temp
    ensures Valid(run) && After(run) == OneSession(A.Publishing, NEW, pool, k, temp)
  {
    run := FirstSessionAcquires(pool, k, temp);
    PingKeepsNew();
    run := Extend(run, Does(1, A.Pin(k), NEW));
  }

  lemma FirstSessionAcquires(pool: A.PoolKey, k: Key, temp: Key) returns (run: seq<Event>)
    requires k != temp
    ensures Valid(run)
    ensures After(run) ==
      State(map[1 := A.Session(A.Pinging, Some(temp), None, Some(k))], map[], map[pool := Pool({}, 1)],
            map[k := Phys(pool, NEW)], {temp}, {k})
  {
    run := FirstSessionConnects(temp);
    run := Extend(run, Does(1, A.Acquire(pool, k, true), NEW));
    assert After(run).pools == map[pool := Pool({}, 1)];
  }

  lemma FirstSessionConnects(temp: Key) returns (run: seq<Event>)
    ensures Valid(run)
    ensures After(run) == INIT.(sessions := map[1 := A.Session(A.Connecting, Some(temp), None, None)], temps := {temp})
  {
    run := Extend([], Accept(1));
    run := Extend(run, Does(1, A.AuthDone(temp), NEW));
  }

  lemma PingKeepsNew()
    ensures Exec(NEW, Ping, false) == (NEW, true)
    ensures ResetRun(NEW, false, false) == (NEW, true)
  {
    forall cmd ensures Exec(NEW, cmd, false) == (NEW, true) {
      assert Serve(NEW, cmd).unread == [Other, Ready(Idle)];
      assert [Other, Ready(Idle)][1..] == [Ready(Idle)] && [Ready(Idle)][1..] == [];
    }
  }

  lemma Registers(pool: A.PoolKey, k: Key, temp: Key)
    ensures Leads(OneSession(A.Publishing, NEW, pool, k, temp), Does(1, A.Register(k), NEW),
                  OneSession(A.Looping, NEW, pool, k, temp))
  {
  }

  lemma Leaves(pool: A.PoolKey, k: Key, temp: Key)
    ensures Leads(OneSession(A.Looping, NEW, pool, k, temp), Does(1, A.Leave, NEW),
                  OneSession(A.Closing, NEW, pool, k, temp))
  {
  }

  lemma Forwards(b: Backend, pool: A.PoolKey, k: Key, temp: Key)
    requires Answered(NEW, b)
    ensures Leads(OneSession(A.Looping, NEW, pool, k, temp), Does(1, A.Forward, b),
                  OneSession(A.Relaying, b, pool, k, temp))
  {
  }

  /** A reply is read that cannot be passed on. */
  lemma LeavesMid(b: Backend, b': Backend, pool: A.PoolKey, k: Key, temp: Key)
    requires b.unread != [] && b' == b.(unread := b.unread[1..])
    ensures Leads(OneSession(A.Relaying, b, pool, k, temp), Does(1, A.LeaveMid(k), b'),
                  OneSession(A.Closing, b', pool, k, temp))
  {
  }

  lemma Closes(b: Backend, pool: A.PoolKey, k: Key, temp: Key)
    ensures Leads(OneSession(A.Closing, b, pool, k, temp), Does(1, A.CloseClient, NEW),
                  OneSession(A.Resetting, b, pool, k, temp))
  {
  }

  lemma CanReset(b: Backend, b': Backend, pool: A.PoolKey, k: Key, temp: Key)
    requires ResetRun(b, false, false) == (b', true)
    ensures Enabled(OneSession(A.Resetting, b, pool, k, temp), Does(1, A.Reset(k, true), b'))
  {
    var st := OneSession(A.Resetting, b, pool, k, temp);
    assert ResetRun(st.conns[k].backend, false, false) == (b', true);
  }

  lemma Resets(b: Backend, b': Backend, pool: A.PoolKey, k: Key, temp: Key)
    requires ResetRun(b, false, false) == (b', true)
    ensures Leads(OneSession(A.Resetting, b, pool, k, temp), Does(1, A.Reset(k, true), b'),
                  OneSession(A.Releasing, b', pool, k, temp))
  {
    CanReset(b, b', pool, k, temp);
  }

  lemma Releases(b: Backend, pool: A.PoolKey, k: Key, temp: Key)
    requires !b.broken
    ensures Leads(OneSession(A.Releasing, b, pool, k, temp), Does(1, A.Release(k, false), NEW),
                  OneSession(A.Unregistering, b, pool, k, temp))
  {
    assert Returned(Pool({}, 1), k, false) == Pool({k}, 0) by { assert {} + {k} == {k}; }
  }

  lemma Unregisters(b: Backend, pool: A.PoolKey, k: Key, temp: Key)
    ensures Leads(OneSession(A.Unregistering, b, pool, k, temp), Does(1, A.Unregister(k), NEW),
                  OneSession(A.Done, b, pool, k, temp))
  {
    assert map[k := 1] - {k} == map[];
  }

  /** From the start of its cleanup to before its unregister: the connection is back in the pool. */
  lemma CleansUp(run: seq<Event>, b: Backend, b': Backend, pool: A.PoolKey, k: Key, temp: Key)
    returns (longer: seq<Event>)
    requires Valid(run) && After(run) == OneSession(A.Closing, b, pool, k, temp)
    requires ResetRun(b, false, false) == (b', true) && !b'.broken
    ensures Valid(longer) && After(longer) == OneSession(A.Unregistering, b', pool, k, temp)
    ensures Does(1, A.Reset(k, true), b') in longer
  {
    Closes(b, pool, k, temp);
    Resets(b, b', pool, k, temp);
    Releases(b', pool, k, temp);
    longer := Extend(run, Does(1, A.CloseClient, NEW));
    longer := Extend(longer, Does(1, A.Reset(k, true), b'));
    longer := Extend(longer, Does(1, A.Release(k, false), NEW));
  }

  /** A second session has taken the same connection, the first being in its window or done. */
  function TwoSessions(first: A.Phase, phase: A.Phase, b: Backend, pool: A.PoolKey, k: Key, temp1: Key,
                       temp2: Key): State {
    var se := if phase.Connecting? then A.Session(phase, Some(temp2), None, None)
              else if phase.Pinging? then A.Session(phase, Some(temp2), None, Some(k))
              else A.Session(phase, Some(k), Some(k), None);
    State(map[1 := A.Session(first, Some(k), Some(k), None), 2 := se],
          if phase.Looping? then map[k := 2] else if first.Done? then map[] else map[k := 1],
          map[pool := if phase.Connecting? then Pool({k}, 0) else Pool({}, 1)],
          map[k := Phys(pool, b)], {temp1, temp2}, {k})
  }

  /** It comes as far as its authentication. */
  lemma SecondSessionConnects(run: seq<Event>, first: A.Phase, b: Backend, pool: A.PoolKey, k: Key, temp1: Key,
                              temp2: Key)
    returns (longer: seq<Event>)
    requires first.Unregistering? || first.Done?
    requires k != temp2 && temp1 != temp2 && Valid(run) && After(run) == OneSession(first, b, pool, k, temp1)
    ensures Valid(longer) && After(longer) == TwoSessions(first, A.Connecting, b, pool, k, temp1, temp2)
    ensures run <= longer
  {
    longer := Extend(run, Accept(2));
    longer := Extend(longer, Does(2, A.AuthDone(temp2), NEW));
  }

  lemma Acquires(first: A.Phase, b: Backend, pool: A.PoolKey, k: Key, temp1: Key, temp2: Key)
    requires first.Unregistering? || first.Done?
    ensures Leads(TwoSessions(first, A.Connecting, b, pool, k, temp1, temp2), Does(2, A.Acquire(pool, k, false), NEW),
                  TwoSessions(first, A.Pinging, b, pool, k, temp1, temp2))
  {
    assert {k} - {k} == {} && {k} + {k} == {k};
    assert (map[pool := Pool({k}, 0)])[pool := Pool({}, 1)] == map[pool := Pool({}, 1)];
  }

  lemma Pins(first: A.Phase, b: Backend, pool: A.PoolKey, k: Key, temp1: Key, temp2: Key)
    requires first.Unregistering? || first.Done?
    requires Exec(b, Ping, false) == (b, true)
    ensures Leads(TwoSessions(first, A.Pinging, b, pool, k, temp1, temp2), Does(2, A.Pin(k), NEW),
                  TwoSessions(first, A.Publishing, b, pool, k, temp1, temp2))
  {
  }

  lemma SecondRegisters(b: Backend, pool: A.PoolKey, k: Key, temp1: Key, temp2: Key)
    ensures Leads(TwoSessions(A.Unregistering, A.Publishing, b, pool, k, temp1, temp2), Does(2, A.Register(k), NEW),
                  TwoSessions(A.Unregistering, A.Looping, b, pool, k, temp1, temp2))
  {
  }

  /** It takes the connection and is about to publish its key. */
  lemma SecondSessionPublishes(run: seq<Event>, first: A.Phase, b: Backend, pool: A.PoolKey, k: Key, temp1: Key,
                               temp2: Key)
    returns (longer: seq<Event>)
    requires first.Unregistering? || first.Done?
    requires k != temp2 && temp1 != temp2 && Valid(run) && After(run) == OneSession(first, b, pool, k, temp1)
    requires Exec(b, Ping, false) == (b, true)
    ensures Valid(longer) && After(longer) == TwoSessions(first, A.Publishing, b, pool, k, temp1, temp2)
    ensures run <= longer
  {
    Acquires(first, b, pool, k, temp1, temp2);
    Pins(first, b, pool, k, temp1, temp2);
    longer := SecondSessionConnects(run, first, b, pool, k, temp1, temp2);
    longer := Extend(longer, Does(2, A.Acquire(pool, k, false), NEW));
    longer := Extend(longer, Does(2, A.Pin(k), NEW));
  }

  /** The first session has served and gone: its connection is back in the pool, its unregister has not run. */
  lemma FirstSessionInWindow(pool: A.PoolKey, k: Key, temp: Key) returns (run: seq<Event>)
    requires k != temp
    ensures Valid(run) && After(run) == OneSession(A.Unregistering, NEW, pool, k, temp)
  {
    PingKeepsNew();
    Registers(pool, k, temp);
    Leaves(pool, k, temp);
    run := FirstSessionPublishes(pool, k, temp);
    run := Extend(run, Does(1, A.Register(k), NEW));
    run := Extend(run, Does(1, A.Leave, NEW));
    run := CleansUp(run, NEW, NEW, pool, k, temp);
  }

  /** A session can be in the query loop and not be found by a cancel request: the connection it took
      had been released by a session that unregistered only after this one had registered. */
  lemma InLoopSessionCanLoseItsEntry(pool: A.PoolKey, k: Key, temp1: Key, temp2: Key) returns (run: seq<Event>)
    requires k != temp1 && k != temp2 && temp1 != temp2
    ensures Valid(run) && InLoopOn(After(run), 2, k) && k !in After(run).registry
  {
    PingKeepsNew();
    SecondRegisters(NEW, pool, k, temp1, temp2);
    run := FirstSessionInWindow(pool, k, temp1);
    run := SecondSessionPublishes(run, A.Unregistering, NEW, pool, k, temp1, temp2);
    run := Extend(run, Does(2, A.Register(k), NEW));
    run := Extend(run, Does(1, A.Unregister(k), NEW));
  }

  /** The connection when its holder leaves with a ReadyForQuery unread; and with a whole answer unread, as
      it is before that and again after the reset. */
  const STALE := NEW.(unread := [Ready(Idle)])
  const OUT_OF_STEP := NEW.(unread := [Other, Ready(Idle)])

  lemma ResetLeavesOutOfStep()
    ensures ResetRun(STALE, false, false) == (OUT_OF_STEP, true)
    ensures Exec(OUT_OF_STEP, Ping, false) == (OUT_OF_STEP, true)
  {
    assert Serve(STALE, Rollback).unread == [Ready(Idle), Other, Ready(Idle)];
    assert [Ready(Idle), Other, Ready(Idle)][1..] == OUT_OF_STEP.unread;
    forall cmd | cmd == Ping || cmd == DiscardAll ensures Exec(OUT_OF_STEP, cmd, false) == (OUT_OF_STEP, true) {
      var served := Serve(OUT_OF_STEP, cmd).unread;
      assert served == [Other, Ready(Idle), Other, Ready(Idle)];
      assert served[1..] == [Ready(Idle), Other, Ready(Idle)] && served[1..][1..] == OUT_OF_STEP.unread;
    }
  }

  /** A session leaves the relay because the first reply to its message could not be sent to the client, the
      ReadyForQuery behind it unread; its reset succeeds and it is done. */
  lemma FirstSessionLeavesMid(pool: A.PoolKey, k: Key, temp: Key) returns (run: seq<Event>)
    requires k != temp
    ensures Valid(run) && After(run) == OneSession(A.Done, OUT_OF_STEP, pool, k, temp)
    ensures Does(1, A.Reset(k, true), OUT_OF_STEP) in run
  {
    Registers(pool, k, temp);
    Forwards(OUT_OF_STEP, pool, k, temp);
    LeavesMid(OUT_OF_STEP, STALE, pool, k, temp);
    Unregisters(OUT_OF_STEP, pool, k, temp);
    ResetLeavesOutOfStep();
    run := FirstSessionPublishes(pool, k, temp);
    run := Extend(run, Does(1, A.Register(k), NEW));
    run := Extend(run, Does(1, A.Forward, OUT_OF_STEP));
    run := Extend(run, Does(1, A.LeaveMid(k), STALE));
    run := CleansUp(run, STALE, OUT_OF_STEP, pool, k, temp);
    run := Extend(run, Does(1, A.Unregister(k), NEW));
  }

  /** Then the next session can be about to publish a connection that is out of step: the reset read an
      earlier session's ReadyForQuery for its own. */
  lemma NextSessionCanFindStaleReplies(pool: A.PoolKey, k: Key, temp1: Key, temp2: Key) returns (run: seq<Event>)
    requires k != temp1 && k != temp2 && temp1 != temp2
    ensures Valid(run) && HeldBy(After(run), 2) == Some(k) && After(run).sessions[2].phase.Publishing?
    ensures k in After(run).conns && !Clean(After(run).conns[k].backend)
    ensures Does(1, A.Reset(k, true), OUT_OF_STEP) in run
  {
    ResetLeavesOutOfStep();
    run := FirstSessionLeavesMid(pool, k, temp1);
    run := SecondSessionPublishes(run, A.Done, OUT_OF_STEP, pool, k, temp1, temp2);
  }

  // ----- The walk over the registry -----

  /** A session has registered `k1` and given its connection back; another takes the new connection `k2` of
      the same pool and is about to register. */
  function SecondOpening(phase: A.Phase, pool: A.PoolKey, k1: Key, k2: Key, temp1: Key, temp2: Key): State {
    var se := if phase.Pinging? then A.Session(phase, Some(temp2), None, Some(k2))
      else A.Session(phase, Some(k2), Some(k2), None);
    State(
      map[1 := A.Session(A.Unregistering, Some(k1), Some(k1), None), 2 := se],
      map[k1 := 1], map[pool := Pool({k1}, 1)], map[k1 := Phys(pool, NEW), k2 := Phys(pool, NEW)],
      {temp1, temp2}, {k1, k2})
  }

  lemma AcquiresNew(pool: A.PoolKey, k1: Key, k2: Key, temp1: Key, temp2: Key)
    requires k1 != k2 && k2 != temp1 && k2 != temp2
    ensures Leads(TwoSessions(A.Unregistering, A.Connecting, NEW, pool, k1, temp1, temp2),
                  Does(2, A.Acquire(pool, k2, true), NEW),
                  SecondOpening(A.Pinging, pool, k1, k2, temp1, temp2))
  {
    assert {k1} - {k2} == {k1} && {k1} + {k2} == {k1, k2};
    assert (map[pool := Pool({k1}, 0)])[pool := Pool({k1}, 1)] == map[pool := Pool({k1}, 1)];
  }

  lemma PinsNew(pool: A.PoolKey, k1: Key, k2: Key, temp1: Key, temp2: Key)
    requires k1 != k2
    ensures Leads(SecondOpening(A.Pinging, pool, k1, k2, temp1, temp2), Does(2, A.Pin(k2), NEW),
                  SecondOpening(A.Publishing, pool, k1, k2, temp1, temp2))
  {
    PingKeepsNew();
  }

  lemma SecondSessionOpens(run: seq<Event>, pool: A.PoolKey, k1: Key, k2: Key, temp1: Key, temp2: Key)
    returns (longer: seq<Event>)
    requires k1 != k2 && k2 != temp1 && k2 != temp2 && k1 != temp2 && temp1 != temp2
    requires Valid(run) && After(run) == OneSession(A.Unregistering, NEW, pool, k1, temp1)
    ensures Valid(longer) && After(longer) == SecondOpening(A.Publishing, pool, k1, k2, temp1, temp2)
  {
    AcquiresNew(pool, k1, k2, temp1, temp2);
    PinsNew(pool, k1, k2, temp1, temp2);
    longer := SecondSessionConnects(run, A.Unregistering, NEW, pool, k1, temp1, temp2);
    longer := Extend(longer, Does(2, A.Acquire(pool, k2, true), NEW));
    longer := Extend(longer, Does(2, A.Pin(k2), NEW));
  }

  /** A run after which an ordinary registration walks over a released connection. */
  lemma RegisteringCanMeetReleased(pool: A.PoolKey, k1: Key, k2: Key, temp1: Key, temp2: Key) returns (run: seq<Event>)
    requires k1 != k2 && k1 != temp1 && k2 != temp1 && k2 != temp2 && k1 != temp2 && temp1 != temp2
    ensures Valid(run) && Enabled(After(run), Does(2, A.Register(k2), NEW))
    ensures WalkMeetsReleased(Step(After(run), Does(2, A.Register(k2), NEW)))
  {
    run := FirstSessionInWindow(pool, k1, temp1);
    run := SecondSessionOpens(run, pool, k1, k2, temp1, temp2);
    assert Enabled(After(run), Does(2, A.Register(k2), NEW));
    RegisteringMeetsReleasedExactly(run, 2, k2, NEW);
    assert Registered(After(run), 1, k1) && Window(After(run), 1, k1);
  }
}
