/** What every step of the proxy keeps. */
module ProxyInvariant {
  import opened Options
  import opened CancelKeys
  import opened ProxySystem
  import A = SessionAutomaton

  function HeldBy(st: State, s: Sid): Option<Key> {
    if s in st.sessions then A.Held(st.sessions[s]) else None
  }

  ghost predicate SessionsWellFormed(st: State) {
    forall s :: s in st.sessions ==> A.WellFormed(st.sessions[s])
  }

  /** Authentication legs and pooled connections never share a key; every key a session has was issued. */
  ghost predicate KeysIssued(st: State) {
    && st.temps !! st.pooled
    && st.conns.Keys <= st.pooled
    && forall s :: s in st.sessions ==> Issued(st, s)
  }

  predicate Issued(st: State, s: Sid)
    requires s in st.sessions
  {
    var se := st.sessions[s];
    && (se.key.Some? && se.poolConn.None? ==> se.key.value in st.temps)
    && (se.poolConn.Some? ==> se.poolConn.value in st.pooled)
    && (se.checking.Some? ==> se.checking.value in st.pooled)
  }

  /** Each physical connection has at most one holder, and is then not in any pool's idle set. */
  ghost predicate Exclusive(st: State) {
    && (forall s :: HeldBy(st, s).Some? ==> HeldBy(st, s).value in st.conns)
    && (forall s, t :: s != t && HeldBy(st, s).Some? ==> HeldBy(st, s) != HeldBy(st, t))
    && (forall pool, k :: k in PoolAt(st, pool).idle ==> k in st.conns && st.conns[k].pool == pool)
    && (forall pool, s :: HeldBy(st, s).Some? ==> HeldBy(st, s).value !in PoolAt(st, pool).idle)
  }

  predicate EntryOk(st: State, k: Key) {
    && k in st.registry
    && st.registry[k] in st.sessions
    && var se := st.sessions[st.registry[k]];
       && se.key == Some(k) && se.poolConn == Some(k)
       && (A.InLoop(se) || se.phase.Closing? || se.phase.Resetting? || se.phase.Releasing? || se.phase.Unregistering?)
  }

  ghost predicate RegistryOk(st: State) {
    forall k :: k in st.registry ==> EntryOk(st, k)
  }

  predicate Holds(st: State, pool: A.PoolKey, s: Sid) {
    HeldBy(st, s).Some? && HeldBy(st, s).value in st.conns && st.conns[HeldBy(st, s).value].pool == pool
  }

  function Holders(st: State, pool: A.PoolKey): set<Sid> {
    set s | s in st.sessions && Holds(st, pool, s)
  }

  /** A pool's acquired count is the number of sessions holding one of its connections. */
  ghost predicate Counted(st: State) {
    forall pool :: PoolAt(st, pool).acquired == |Holders(st, pool)|
                   && |PoolAt(st, pool).idle| + PoolAt(st, pool).acquired <= MAX_CONNS
  }

  ghost predicate Inv(st: State) {
    SessionsWellFormed(st) && KeysIssued(st) && Exclusive(st) && RegistryOk(st) && Counted(st)
  }

  lemma KeepsWellFormed(st: State, ev: Event)
    requires SessionsWellFormed(st) && Enabled(st, ev)
    ensures SessionsWellFormed(Step(st, ev))
  {
    if ev.Does? {
      A.NextWellFormed(st.sessions[ev.sid], ev.act);
    }
  }

  /** No connection is there that was not, but for one acquired. */
  lemma ConnsGrow(st: State, ev: Event)
    requires Enabled(st, ev)
    ensures Step(st, ev).conns.Keys <= st.conns.Keys + if ev.Does? && ev.act.Acquire? then {ev.act.conn} else {}
  {
  }

  lemma StaysIssued(st: State, ev: Event, s: Sid)
    requires SessionsWellFormed(st) && Enabled(st, ev) && s in Step(st, ev).sessions
    requires s in st.sessions ==> Issued(st, s)
    ensures Issued(Step(st, ev), s)
  {
  }

  lemma KeepsIssued(st: State, ev: Event)
    requires SessionsWellFormed(st) && KeysIssued(st) && Exclusive(st) && Enabled(st, ev)
    ensures KeysIssued(Step(st, ev))
  {
    ConnsGrow(st, ev);
    forall s | s in Step(st, ev).sessions ensures Issued(Step(st, ev), s) {
      StaysIssued(st, ev, s);
    }
    if ev.Does? && ev.act.Acquire? && !ev.act.isNew {
      assert ev.act.conn in PoolAt(st, ev.act.pool).idle;
    }
  }

  /** Only acquiring, a failed ping and releasing change what a session holds. */
  lemma HeldAfter(st: State, ev: Event, s: Sid)
    requires SessionsWellFormed(st) && Enabled(st, ev)
    ensures HeldBy(Step(st, ev), s) ==
      if ev.Does? && ev.sid == s && ev.act.Acquire? then Some(ev.act.conn)
      else if ev.Does? && ev.sid == s && (ev.act.PingFail? || ev.act.Release?) then None
      else HeldBy(st, s)
    ensures ev.Does? && (ev.act.PingFail? || ev.act.Release?) ==> HeldBy(st, ev.sid) == Some(ev.act.conn)
    ensures ev.Does? && ev.act.Acquire? ==> HeldBy(st, ev.sid) == None
  {
  }

  lemma KeepsExclusive(st: State, ev: Event)
    requires Inv(st) && Enabled(st, ev)
    ensures Exclusive(Step(st, ev))
  {
    var st' := Step(st, ev);
    forall s | HeldBy(st', s).Some? ensures HeldBy(st', s).value in st'.conns {
      HeldStaysOpen(st, ev, s);
    }
    forall s, t | s != t && HeldBy(st', s).Some? ensures HeldBy(st', s) != HeldBy(st', t) {
      HeldByOne(st, ev, s, t);
    }
    forall pool, k | k in PoolAt(st', pool).idle ensures k in st'.conns && st'.conns[k].pool == pool {
      IdleStaysOpen(st, ev, pool, k);
    }
    forall pool, s | HeldBy(st', s).Some? ensures HeldBy(st', s).value !in PoolAt(st', pool).idle {
      HeldNotIdle(st, ev, pool, s);
    }
  }

  /** A physical connection closes only where its holder gives it back, or while it is idle. */
  lemma ConnsAfter(st: State, ev: Event, k: Key)
    requires Enabled(st, ev) && k in st.conns
    requires ev.Expire? ==> ev.conn != k
    requires ev.Does? && (ev.act.PingFail? || ev.act.Release?) ==> ev.act.conn != k
    ensures k in Step(st, ev).conns
  {
  }

  lemma HeldStaysOpen(st: State, ev: Event, s: Sid)
    requires Inv(st) && Enabled(st, ev) && HeldBy(Step(st, ev), s).Some?
    ensures HeldBy(Step(st, ev), s).value in Step(st, ev).conns
  {
    HeldAfter(st, ev, s);
    var k := HeldBy(Step(st, ev), s).value;
    if ev.Does? {
      HeldAfter(st, ev, ev.sid);
    }
    if ev.Does? && ev.sid == s && ev.act.Acquire? {
      assert ev.act.isNew || k in PoolAt(st, ev.act.pool).idle;
    } else {
      assert HeldBy(st, s) == Some(k);
      assert ev.Expire? ==> k !in PoolAt(st, ev.pool).idle;
      ConnsAfter(st, ev, k);
    }
  }

  lemma HeldByOne(st: State, ev: Event, s: Sid, t: Sid)
    requires Inv(st) && Enabled(st, ev) && s != t && HeldBy(Step(st, ev), s).Some?
    ensures HeldBy(Step(st, ev), s) != HeldBy(Step(st, ev), t)
  {
    HeldAfter(st, ev, s);
    HeldAfter(st, ev, t);
    if ev.Does? && ev.act.Acquire? {
      assert HeldBy(st, t).Some? ==> HeldBy(st, t).value !in PoolAt(st, ev.act.pool).idle;
      assert HeldBy(st, s).Some? ==> HeldBy(st, s).value !in PoolAt(st, ev.act.pool).idle;
    }
  }

  lemma ConnPoolStays(st: State, ev: Event, k: Key)
    requires Enabled(st, ev) && k in st.conns && k in Step(st, ev).conns
    requires ev.Does? && ev.act.Acquire? && ev.act.isNew ==> ev.act.conn != k
    ensures Step(st, ev).conns[k].pool == st.conns[k].pool
  {
  }

  lemma IdleStaysOpen(st: State, ev: Event, pool: A.PoolKey, k: Key)
    requires Inv(st) && Enabled(st, ev) && k in PoolAt(Step(st, ev), pool).idle
    ensures k in Step(st, ev).conns && Step(st, ev).conns[k].pool == pool
  {
    PoolAfter(st, ev, pool);
    if ev.Does? {
      HeldAfter(st, ev, ev.sid);
    }
    assert k in st.conns && st.conns[k].pool == pool;
    assert ev.Expire? ==> ev.conn in st.conns && st.conns[ev.conn].pool == ev.pool;
    assert ev.Does? && ev.act.Acquire? && ev.act.isNew ==> ev.act.conn !in st.conns;
    if Returns(st, ev, pool) && k == ev.act.conn {
      assert HeldBy(st, ev.sid) == Some(k) && !ev.act.destroyed;
    } else {
      assert k in PoolAt(st, pool).idle;
      ConnsAfter(st, ev, k);
    }
    ConnPoolStays(st, ev, k);
  }

  lemma HeldNotIdle(st: State, ev: Event, pool: A.PoolKey, s: Sid)
    requires Inv(st) && Enabled(st, ev) && HeldBy(Step(st, ev), s).Some?
    ensures HeldBy(Step(st, ev), s).value !in PoolAt(Step(st, ev), pool).idle
  {
    HeldAfter(st, ev, s);
    PoolAfter(st, ev, pool);
    var k := HeldBy(Step(st, ev), s).value;
    if ev.Does? && ev.sid == s && ev.act.Acquire? {
      assert k in PoolAt(st, pool).idle ==> k in st.conns && st.conns[k].pool == pool;
      assert !ev.act.isNew ==> k in PoolAt(st, ev.act.pool).idle;
    } else {
      assert HeldBy(st, s) == Some(k) && k !in PoolAt(st, pool).idle;
      if Returns(st, ev, pool) {
        HeldAfter(st, ev, ev.sid);
        assert HeldBy(st, s) != HeldBy(st, ev.sid);
      }
    }
  }

  lemma KeepsEntry(st: State, ev: Event, k: Key)
    requires SessionsWellFormed(st) && Enabled(st, ev) && k in Step(st, ev).registry
    requires k in st.registry ==> EntryOk(st, k)
    ensures EntryOk(Step(st, ev), k)
  {
  }

  lemma KeepsRegistry(st: State, ev: Event)
    requires Inv(st) && Enabled(st, ev)
    ensures RegistryOk(Step(st, ev))
  {
    forall k | k in Step(st, ev).registry ensures EntryOk(Step(st, ev), k) {
      KeepsEntry(st, ev, k);
    }
  }

  /** The event hands out one of the pool's connections, or takes one back. */
  predicate Takes(ev: Event, pool: A.PoolKey) {
    ev.Does? && ev.act.Acquire? && ev.act.pool == pool
  }

  predicate Returns(st: State, ev: Event, pool: A.PoolKey) {
    ev.Does? && (ev.act.PingFail? || ev.act.Release?) && ev.act.conn in st.conns && st.conns[ev.act.conn].pool == pool
  }

  lemma HoldsAfter(st: State, ev: Event, pool: A.PoolKey, s: Sid)
    requires Inv(st) && Enabled(st, ev)
    ensures Holds(Step(st, ev), pool, s) <==> HoldsNext(st, ev, pool, s)
    ensures Takes(ev, pool) && s == ev.sid ==> !Holds(st, pool, s)
    ensures Returns(st, ev, pool) && s == ev.sid ==> Holds(st, pool, s)
  {
    HeldAfter(st, ev, s);
    if ev.Does? {
      HeldAfter(st, ev, ev.sid);
    }
    KeepsExclusive(st, ev);
    if s in st.sessions && HeldBy(st, s).Some? && ev.Expire? {
      assert HeldBy(st, s).value !in PoolAt(st, ev.pool).idle;
    }
    if s in st.sessions && HeldBy(st, s).Some? && ev.Does? && ev.act.Acquire? && s != ev.sid {
      assert HeldBy(st, s).value !in PoolAt(st, ev.act.pool).idle;
    }
  }

  lemma PoolAfter(st: State, ev: Event, pool: A.PoolKey)
    requires Inv(st) && Enabled(st, ev)
    ensures PoolAt(Step(st, ev), pool) ==
      var p := PoolAt(st, pool);
      if Takes(ev, pool) then Pool(p.idle - {ev.act.conn}, p.acquired + 1)
      else if Returns(st, ev, pool) then Returned(p, ev.act.conn, ev.act.destroyed)
      else if ev.Expire? && ev.pool == pool then p.(idle := p.idle - {ev.conn})
      else p
  {
    assert PoolAt(Step(st, ev), pool) == if pool in NextPools(st, ev) then NextPools(st, ev)[pool] else EMPTY_POOL;
  }

  lemma NewConnectionNotIdle(st: State, ev: Event, pool: A.PoolKey)
    requires Inv(st) && Enabled(st, ev) && Takes(ev, pool)
    ensures ev.act.isNew <==> ev.act.conn !in PoolAt(st, pool).idle
  {
    if ev.act.conn in PoolAt(st, pool).idle {
      assert ev.act.conn in st.conns;
    }
  }

  lemma KeepsCounted(st: State, ev: Event)
    requires Inv(st) && Enabled(st, ev)
    ensures Counted(Step(st, ev))
  {
    var st' := Step(st, ev);
    forall pool
      ensures PoolAt(st', pool).acquired == |Holders(st', pool)|
      ensures |PoolAt(st', pool).idle| + PoolAt(st', pool).acquired <= MAX_CONNS
    {
      HoldersAfter(st, ev, pool);
      PoolAfter(st, ev, pool);
      if Takes(ev, pool) {
        NewConnectionNotIdle(st, ev, pool);
      }
      assert PoolAt(st, pool).acquired == |Holders(st, pool)|;
    }
  }

  /** One more member, or one less. */
  lemma Gains(earlier: set<Sid>, later: set<Sid>, s: Sid)
    requires s !in earlier && forall t :: t in later <==> t == s || t in earlier
    ensures |later| == |earlier| + 1
  {
    assert later == earlier + {s};
  }

  lemma HolderNext(st: State, ev: Event, pool: A.PoolKey, s: Sid)
    requires Inv(st) && Enabled(st, ev)
    ensures Takes(ev, pool) ==> (s in Holders(Step(st, ev), pool) <==> s == ev.sid || s in Holders(st, pool))
    ensures Returns(st, ev, pool) ==> (s in Holders(Step(st, ev), pool) <==> s != ev.sid && s in Holders(st, pool))
    ensures !Takes(ev, pool) && !Returns(st, ev, pool) ==>
      (s in Holders(Step(st, ev), pool) <==> s in Holders(st, pool))
    ensures Takes(ev, pool) && s == ev.sid ==> s !in Holders(st, pool)
    ensures Returns(st, ev, pool) && s == ev.sid ==> s in Holders(st, pool)
  {
    HoldsAfter(st, ev, pool, s);
    HoldersAre(st, pool, s);
    HoldersAre(Step(st, ev), pool, s);
  }

  lemma HoldersAfter(st: State, ev: Event, pool: A.PoolKey)
    requires Inv(st) && Enabled(st, ev)
    ensures var earlier, later := |Holders(st, pool)|, |Holders(Step(st, ev), pool)|;
      if Takes(ev, pool) then later == earlier + 1
      else if Returns(st, ev, pool) then later == earlier - 1
      else later == earlier
  {
    var earlier, later := Holders(st, pool), Holders(Step(st, ev), pool);
    if Takes(ev, pool) {
      forall s ensures (s in later <==> s == ev.sid || s in earlier) && ev.sid !in earlier {
        HolderNext(st, ev, pool, s);
        HolderNext(st, ev, pool, ev.sid);
      }
      Gains(earlier, later, ev.sid);
    } else if Returns(st, ev, pool) {
      forall s ensures (s in earlier <==> s == ev.sid || s in later) && ev.sid !in later {
        HolderNext(st, ev, pool, s);
        HolderNext(st, ev, pool, ev.sid);
      }
      Gains(later, earlier, ev.sid);
    } else {
      forall s ensures s in later <==> s in earlier {
        HolderNext(st, ev, pool, s);
      }
      assert later == earlier;
    }
  }

  /** Who holds one of the pool's connections after an event. */
  predicate HoldsNext(st: State, ev: Event, pool: A.PoolKey, s: Sid) {
    if Takes(ev, pool) && s == ev.sid then true
    else if Returns(st, ev, pool) && s == ev.sid then false
    else Holds(st, pool, s)
  }

  lemma HoldersAre(st: State, pool: A.PoolKey, s: Sid)
    ensures s in Holders(st, pool) <==> Holds(st, pool, s)
  {
  }

  lemma InvInit()
    ensures Inv(INIT)
  {
    forall pool ensures PoolAt(INIT, pool).acquired == |Holders(INIT, pool)| {
      assert Holders(INIT, pool) == {};
    }
  }

  /** The invariant holds in every state any number of sessions can reach. */
  lemma {:induction false} InvAlways(run: seq<Event>)
    requires Valid(run)
    ensures Inv(After(run))
    decreases |run|
  {
    if run == [] {
      InvInit();
    } else {
      InvAlways(Init(run));
      var st, ev := After(Init(run)), Last(run);
      KeepsWellFormed(st, ev);
      KeepsIssued(st, ev);
      KeepsExclusive(st, ev);
      KeepsRegistry(st, ev);
      KeepsCounted(st, ev);
    }
  }
}
