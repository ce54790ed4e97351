/** Safety of the proxy over whole runs: who is in the cancel registry, how often connections are
    given back, and in what condition the next session gets them. */
module ProxyTheorems {
  import opened Options
  import opened CancelKeys
  import opened PooledBackend
  import opened ProxySystem
  import opened ProxyInvariant
  import A = SessionAutomaton

  /** Event `i` of the run is this act of session `s`. */
  predicate At(run: seq<Event>, i: int, s: Sid, act: A.Act) {
    0 <= i < |run| && run[i].Does? && run[i].sid == s && run[i].act == act
  }

  predicate AcquiresAt(run: seq<Event>, i: int, s: Sid, k: Key) {
    0 <= i < |run| && run[i].Does? && run[i].sid == s && run[i].act.Acquire? && run[i].act.conn == k
  }

  predicate ReleasesAt(run: seq<Event>, i: int, s: Sid, k: Key) {
    0 <= i < |run| && run[i].Does? && run[i].sid == s && run[i].act.Release? && run[i].act.conn == k
  }

  predicate InLoopOn(st: State, s: Sid, k: Key) {
    s in st.sessions && A.InLoop(st.sessions[s]) && st.sessions[s].poolConn == Some(k)
  }

  predicate Window(st: State, s: Sid, k: Key) {
    s in st.sessions && A.InWindow(st.sessions[s], k)
  }

  predicate Registered(st: State, s: Sid, k: Key) {
    k in st.registry && st.registry[k] == s
  }

  /** Every entry of the registry belongs to a session with that key, which still holds the connection
      or is exactly between its Release and its unregister; no session that is done is in it. */
  lemma RegistryEntriesHoldOrJustReleased(run: seq<Event>, k: Key)
    requires Valid(run) && k in After(run).registry
    ensures var st := After(run);
      var s := st.registry[k];
      && s in st.sessions && st.sessions[s].key == Some(k) && !st.sessions[s].phase.Done?
      && (HeldBy(st, s) == Some(k) <==> !Window(st, s, k))
  {
    InvAlways(run);
    assert EntryOk(After(run), k);
  }

  /** A session that never got a pooled connection unregisters its authentication leg's key, and
      that changes nothing. */
  lemma TempKeyUnregisterChangesNothing(run: seq<Event>, s: Sid, k: Key, answer: Backend)
    requires Valid(run) && Enabled(After(run), Does(s, A.Unregister(k), answer))
    requires After(run).sessions[s].poolConn.None?
    ensures Step(After(run), Does(s, A.Unregister(k), answer)).registry == After(run).registry
  {
    InvAlways(run);
  }

  // ----- Who loses an entry -----

  /** A registered session stays past the point of registering; it registers once. */
  lemma {:induction false} RegistersOnce(run: seq<Event>, r: int, s: Sid, k: Key)
    requires Valid(run) && At(run, r, s, A.Register(k))
    ensures s in After(run).sessions
    ensures var ph := After(run).sessions[s].phase;
      !(ph.Starting? || ph.Connecting? || ph.Pinging? || ph.Publishing?)
    decreases |run|
  {
    if r < |run| - 1 {
      RegistersOnce(Init(run), r, s, k);
    }
  }

  /** Session `t` released `k` before session `s` acquired it, and if `s` is in the loop it
      registered after that. */
  ghost predicate TookOver(run: seq<Event>, t: Sid, s: Sid, k: Key, registered: bool) {
    exists h, a :: h < a && ReleasesAt(run, h, t, k) && AcquiresAt(run, a, s, k)
                   && (registered ==> exists r :: a < r && At(run, r, s, A.Register(k)))
  }

  lemma TookOverExtends(run: seq<Event>, t: Sid, s: Sid, k: Key, registered: bool)
    requires run != [] && TookOver(Init(run), t, s, k, registered)
    ensures TookOver(run, t, s, k, registered)
  {
    var h, a :| h < a && ReleasesAt(Init(run), h, t, k) && AcquiresAt(Init(run), a, s, k)
                && (registered ==> exists r :: a < r && At(Init(run), r, s, A.Register(k)));
    assert ReleasesAt(run, h, t, k) && AcquiresAt(run, a, s, k);
    if registered {
      var r :| a < r && At(Init(run), r, s, A.Register(k));
      assert At(run, r, s, A.Register(k));
    }
  }

  /** A session between Release and unregister has released. */
  lemma {:induction false} WindowReleased(run: seq<Event>, t: Sid, k: Key)
    requires Valid(run) && Window(After(run), t, k)
    ensures exists h :: ReleasesAt(run, h, t, k)
    decreases |run|
  {
    InvAlways(Init(run));
    if Window(After(Init(run)), t, k) {
      WindowReleased(Init(run), t, k);
      var h :| ReleasesAt(Init(run), h, t, k);
      assert ReleasesAt(run, h, t, k);
    } else {
      assert ReleasesAt(run, |run| - 1, t, k);
    }
  }

  /** A session that takes a connection in another's window does so after that one's release. */
  lemma TakesOver(run: seq<Event>, t: Sid, s: Sid, k: Key)
    requires run != [] && Valid(run) && Window(After(run), t, k)
    requires HeldBy(After(run), s) == Some(k) && HeldBy(After(Init(run)), s) != Some(k)
    ensures TookOver(run, t, s, k, false) && !InLoopOn(After(run), s, k)
  {
    var before := Init(run);
    InvAlways(before);
    HeldAfter(After(before), Last(run), s);
    assert AcquiresAt(run, |run| - 1, s, k) && Window(After(before), t, k);
    WindowReleased(before, t, k);
    var h :| ReleasesAt(before, h, t, k);
    assert ReleasesAt(run, h, t, k);
  }

  lemma RegistersAfterTakingOver(run: seq<Event>, t: Sid, s: Sid, k: Key)
    requires run != [] && Valid(run) && TookOver(Init(run), t, s, k, false)
    requires InLoopOn(After(run), s, k) && !InLoopOn(After(Init(run)), s, k)
    ensures TookOver(run, t, s, k, true)
  {
    InvAlways(Init(run));
    var h, a :| h < a && ReleasesAt(Init(run), h, t, k) && AcquiresAt(Init(run), a, s, k);
    assert ReleasesAt(run, h, t, k) && AcquiresAt(run, a, s, k);
    assert At(run, |run| - 1, s, A.Register(k));
  }

  lemma TookOverWeakens(run: seq<Event>, t: Sid, s: Sid, k: Key, registered: bool)
    requires TookOver(run, t, s, k, registered)
    ensures TookOver(run, t, s, k, false)
  {
    var h, a :| h < a && ReleasesAt(run, h, t, k) && AcquiresAt(run, a, s, k);
  }

  /** What a holder had while another was in its window, it has held since before. */
  lemma WindowStaysOpen(run: seq<Event>, t: Sid, s: Sid, k: Key)
    requires run != [] && Valid(run) && Window(After(run), t, k)
    requires HeldBy(After(run), s) == Some(k) && HeldBy(After(Init(run)), s) == Some(k)
    ensures Window(After(Init(run)), t, k)
  {
    InvAlways(Init(run));
    InvAlways(run);
    HeldAfter(After(Init(run)), Last(run), t);
  }

  /** A connection held by one session while another is still in its window changed hands in between. */
  lemma {:induction false} HolderTookOver(run: seq<Event>, t: Sid, s: Sid, k: Key)
    requires Valid(run) && Window(After(run), t, k) && HeldBy(After(run), s) == Some(k)
    ensures TookOver(run, t, s, k, InLoopOn(After(run), s, k))
    decreases |run|
  {
    var before := Init(run);
    if HeldBy(After(before), s) != Some(k) {
      TakesOver(run, t, s, k);
    } else {
      WindowStaysOpen(run, t, s, k);
      HolderTookOver(before, t, s, k);
      TookOverWeakens(before, t, s, k, InLoopOn(After(before), s, k));
      if InLoopOn(After(run), s, k) && !InLoopOn(After(before), s, k) {
        RegistersAfterTakingOver(run, t, s, k);
      } else {
        TookOverExtends(run, t, s, k, InLoopOn(After(run), s, k));
      }
    }
  }

  /** Session `t` unregistered `k` after session `s` registered it. */
  ghost predicate Evicts(run: seq<Event>, t: Sid, s: Sid, k: Key) {
    exists r, j :: r < j && At(run, r, s, A.Register(k)) && At(run, j, t, A.Unregister(k))
  }

  lemma EvictsExtends(run: seq<Event>, t: Sid, s: Sid, k: Key)
    requires run != [] && Evicts(Init(run), t, s, k)
    ensures Evicts(run, t, s, k)
  {
    var r, j :| r < j && At(Init(run), r, s, A.Register(k)) && At(Init(run), j, t, A.Unregister(k));
    assert At(run, r, s, A.Register(k)) && At(run, j, t, A.Unregister(k));
  }

  lemma {:induction false} RegisteredNotEvicted(run: seq<Event>, t: Sid, s: Sid, k: Key)
    requires Valid(run) && InLoopOn(After(run), s, k) && Registered(After(run), s, k)
    ensures !Evicts(run, t, s, k)
    decreases |run|
  {
    var before := Init(run);
    if Evicts(run, t, s, k) {
      var r, j :| r < j && At(run, r, s, A.Register(k)) && At(run, j, t, A.Unregister(k));
      RegistersOnce(before, r, s, k);
      assert At(before, r, s, A.Register(k));
      if j < |run| - 1 {
        assert At(before, j, t, A.Unregister(k));
        RegisteredNotEvicted(before, t, s, k);
      }
    }
  }

  /** Only another session's unregister takes an in-loop session out of the registry. */
  lemma LosesEntryOnlyTo(st: State, ev: Event, s: Sid, k: Key)
    requires Inv(st) && Enabled(st, ev) && InLoopOn(Step(st, ev), s, k)
    requires Registered(st, s, k) && !Registered(Step(st, ev), s, k)
    ensures ev.Does? && ev.sid != s && ev.act == A.Unregister(k) && Window(st, ev.sid, k)
  {
    assert ev.Does? && (ev.act.Register? || ev.act.Unregister?) && ev.act.conn == k;
    var mine, theirs := HeldBy(st, s), HeldBy(st, ev.sid);
    assert mine == Some(k);
  }

  lemma NewEviction(run: seq<Event>, s: Sid, k: Key)
    requires run != [] && Valid(run) && InLoopOn(After(run), s, k) && !Registered(After(run), s, k)
    requires InLoopOn(After(Init(run)), s, k) && Registered(After(Init(run)), s, k)
    ensures exists t :: Evicts(run, t, s, k)
  {
    var before := Init(run);
    InvAlways(before);
    LosesEntryOnlyTo(After(before), Last(run), s, k);
    var t := Last(run).sid;
    HolderTookOver(before, t, s, k);
    EvictsNow(run, t, s, k);
  }

  lemma EvictsNow(run: seq<Event>, t: Sid, s: Sid, k: Key)
    requires run != [] && TookOver(Init(run), t, s, k, true) && At(run, |run| - 1, t, A.Unregister(k))
    ensures Evicts(run, t, s, k)
  {
    TookOverExtends(run, t, s, k, true);
    var r :| r < |run| - 1 && At(run, r, s, A.Register(k));
  }

  /** A session enters the loop registered. */
  lemma EntersRegistered(run: seq<Event>, s: Sid, k: Key)
    requires run != [] && Valid(run) && InLoopOn(After(run), s, k) && !Registered(After(run), s, k)
    ensures InLoopOn(After(Init(run)), s, k)
  {
    InvAlways(Init(run));
  }

  lemma {:induction false} UnregisteredWasEvicted(run: seq<Event>, s: Sid, k: Key)
    requires Valid(run) && InLoopOn(After(run), s, k) && !Registered(After(run), s, k)
    ensures exists t :: Evicts(run, t, s, k)
    decreases |run|
  {
    EntersRegistered(run, s, k);
    if Registered(After(Init(run)), s, k) {
      NewEviction(run, s, k);
    } else {
      UnregisteredWasEvicted(Init(run), s, k);
      var t :| Evicts(Init(run), t, s, k);
      EvictsExtends(run, t, s, k);
    }
  }

  /** Whoever unregisters a key of a session in the loop held the same connection before it. */
  lemma UnregistersInWindow(run: seq<Event>, t: Sid, s: Sid, k: Key)
    requires run != [] && Valid(run) && At(run, |run| - 1, t, A.Unregister(k)) && InLoopOn(After(run), s, k)
    ensures t != s && InLoopOn(After(Init(run)), s, k) && TookOver(run, t, s, k, true)
  {
    var before := After(Init(run));
    InvAlways(Init(run));
    assert A.WellFormed(before.sessions[t]) && InLoopOn(before, s, k);
    assert k in before.pooled && before.sessions[t].key == Some(k);
    HolderTookOver(Init(run), t, s, k);
    TookOverExtends(run, t, s, k, true);
  }

  lemma {:induction false} EvictorsTookOver(run: seq<Event>, t: Sid, s: Sid, k: Key)
    requires Valid(run) && InLoopOn(After(run), s, k) && Evicts(run, t, s, k)
    ensures t != s && TookOver(run, t, s, k, true)
    decreases |run|
  {
    var r, j :| r < j && At(run, r, s, A.Register(k)) && At(run, j, t, A.Unregister(k));
    if j == |run| - 1 {
      UnregistersInWindow(run, t, s, k);
    } else {
      var before := Init(run);
      assert At(before, r, s, A.Register(k)) && At(before, j, t, A.Unregister(k));
      RegistersOnce(before, r, s, k);
      EvictorsTookOver(before, t, s, k);
      TookOverExtends(run, t, s, k, true);
    }
  }

  /** A session in the query loop is the registry's value for its key if and only if no session has
      unregistered that key since it registered; any that has is an earlier holder of the same
      connection, which released it before this session acquired it. */
  lemma RegisteredUnlessEvicted(run: seq<Event>, s: Sid, k: Key)
    requires Valid(run) && InLoopOn(After(run), s, k)
    ensures Registered(After(run), s, k) <==> !exists t :: Evicts(run, t, s, k)
    ensures forall t :: Evicts(run, t, s, k) ==> t != s && TookOver(run, t, s, k, true)
  {
    forall t | Evicts(run, t, s, k) ensures t != s && TookOver(run, t, s, k, true) {
      EvictorsTookOver(run, t, s, k);
    }
    if Registered(After(run), s, k) {
      forall t ensures !Evicts(run, t, s, k) {
        RegisteredNotEvicted(run, t, s, k);
      }
    } else {
      UnregisteredWasEvicted(run, s, k);
    }
  }

  // ----- Runs in which no connection is taken inside a window -----

  /** No session acquires a connection whose last holder has released but not yet unregistered it. */
  ghost predicate NoAcquireInWindow(run: seq<Event>)
    requires Valid(run)
    decreases |run|
  {
    run == [] ||
    (NoAcquireInWindow(Init(run)) &&
     (Last(run).Does? && Last(run).act.Acquire? ==> forall t :: !Window(After(Init(run)), t, Last(run).act.conn)))
  }

  /** A window opens at a Release and nowhere else. */
  lemma WindowOpens(st: State, ev: Event, t: Sid, k: Key)
    requires Inv(st) && Enabled(st, ev) && Window(Step(st, ev), t, k)
    ensures Window(st, t, k) || (ev.Does? && ev.sid == t && ev.act.Release? && ev.act.conn == k)
    ensures HeldBy(Step(st, ev), t) == None
  {
  }

  ghost predicate NoHolderInWindow(st: State) {
    forall s, t, k :: HeldBy(st, s) == Some(k) ==> !Window(st, t, k)
  }

  lemma StillNoHolderInWindow(st: State, ev: Event, s: Sid, t: Sid, k: Key)
    requires Inv(st) && NoHolderInWindow(st) && Enabled(st, ev) && HeldBy(Step(st, ev), s) == Some(k)
    requires ev.Does? && ev.act.Acquire? ==> forall u :: !Window(st, u, ev.act.conn)
    ensures !Window(Step(st, ev), t, k)
  {
    HeldAfter(st, ev, s);
    HeldAfter(st, ev, t);
    assert HeldBy(st, s) == Some(k) ==> !Window(st, t, k);
    if Window(Step(st, ev), t, k) {
      WindowOpens(st, ev, t, k);
    }
  }

  lemma StillRegistered(st: State, ev: Event, s: Sid, k: Key)
    requires Inv(st) && NoHolderInWindow(st) && Enabled(st, ev) && InLoopOn(Step(st, ev), s, k)
    requires InLoopOn(st, s, k) ==> Registered(st, s, k)
    ensures Registered(Step(st, ev), s, k)
  {
    if InLoopOn(st, s, k) {
      assert HeldBy(st, s) == Some(k);
      if !Registered(Step(st, ev), s, k) {
        LosesEntryOnlyTo(st, ev, s, k);
      }
    }
  }

  /** Then a holder never meets another session's window, and never loses its entry. */
  lemma {:induction false} QuietHolders(run: seq<Event>)
    requires Valid(run) && NoAcquireInWindow(run)
    ensures NoHolderInWindow(After(run))
    ensures forall s, k :: InLoopOn(After(run), s, k) ==> Registered(After(run), s, k)
    decreases |run|
  {
    if run != [] {
      var before, ev := Init(run), Last(run);
      InvAlways(before);
      QuietHolders(before);
      forall s, t, k | HeldBy(After(run), s) == Some(k) ensures !Window(After(run), t, k) {
        StillNoHolderInWindow(After(before), ev, s, t, k);
      }
      forall s, k | InLoopOn(After(run), s, k) ensures Registered(After(run), s, k) {
        StillRegistered(After(before), ev, s, k);
      }
    }
  }

  /** In such runs the registry restricted to sessions in the query loop is exactly the bijection
      between them and the connections they hold. */
  lemma RegistryIsBijection(run: seq<Event>)
    requires Valid(run) && NoAcquireInWindow(run)
    ensures var st := After(run);
      && (forall s, k :: InLoopOn(st, s, k) <==> Registered(st, s, k) && s in st.sessions && A.InLoop(st.sessions[s]))
      && (forall s, t, k :: InLoopOn(st, s, k) && InLoopOn(st, t, k) ==> s == t)
  {
    QuietHolders(run);
    InvAlways(run);
    var st := After(run);
    forall s, k | Registered(st, s, k) && s in st.sessions && A.InLoop(st.sessions[s]) ensures InLoopOn(st, s, k) {
      assert EntryOk(st, k);
    }
    forall s, t, k | InLoopOn(st, s, k) && InLoopOn(st, t, k) ensures s == t {
      assert HeldBy(st, s) == HeldBy(st, t) == Some(k);
    }
  }

  /** A cancel request that finds a session names a connection that session holds, or has released
      but not unregistered; in the second case whoever holds it now is not the session found. */
  lemma CancelReachesTheSessionOrItsSuccessor(run: seq<Event>, c: Sid, k: Key, s: Sid, answer: Backend)
    requires Valid(run) && Enabled(After(run), Does(c, A.LookUp(k, Some(s)), answer))
    ensures HeldBy(After(run), s) == Some(k) <==> !Window(After(run), s, k)
    ensures forall t :: HeldBy(After(run), t) == Some(k) ==> (t == s <==> !Window(After(run), s, k))
  {
    InvAlways(run);
    assert EntryOk(After(run), k);
  }

  // ----- The walk over the registry -----

  /** The session has had a pooled connection and given it back. */
  predicate Released(st: State, s: Sid) {
    s in st.sessions && st.sessions[s].poolConn.Some? && HeldBy(st, s).None?
  }

  /** registerConnection looks into the pooled connection of every session in the registry, its own
      included; one that has been released is no longer there to be looked into. */
  predicate WalkMeetsReleased(st: State) {
    exists k :: k in st.registry && Released(st, st.registry[k])
  }

  /** A registration meets a released connection exactly if another key is still registered for a session
      between its Release and its unregister. */
  lemma RegisteringMeetsReleasedExactly(run: seq<Event>, s: Sid, k: Key, answer: Backend)
    requires Valid(run) && Enabled(After(run), Does(s, A.Register(k), answer))
    ensures WalkMeetsReleased(Step(After(run), Does(s, A.Register(k), answer))) <==>
      exists k', t :: k' != k && Registered(After(run), t, k') && Window(After(run), t, k')
  {
    InvAlways(run);
    var st, next := After(run), Step(After(run), Does(s, A.Register(k), answer));
    assert st.sessions[s].poolConn == Some(k) && !Released(next, s);
    forall k' | k' != k ensures k' in next.registry && Released(next, next.registry[k']) <==>
                                k' in st.registry && Window(st, st.registry[k'], k')
    {
      if k' in st.registry {
        assert EntryOk(st, k') && st.registry[k'] != s;
      }
    }
    if k', t :| k' != k && Registered(st, t, k') && Window(st, t, k') {
      assert k' in next.registry && Released(next, next.registry[k']);
    }
    if k' :| k' in next.registry && Released(next, next.registry[k']) {
      assert Registered(st, st.registry[k'], k') && Window(st, st.registry[k'], k');
    }
  }

  // ----- Every connection goes back exactly once -----

  function Takings(ev: Event, s: Sid): nat {
    if ev.Does? && ev.sid == s && ev.act.Acquire? then 1 else 0
  }

  function Returnings(ev: Event, s: Sid): nat {
    if ev.Does? && ev.sid == s && (ev.act.Release? || ev.act.PingFail?) then 1 else 0
  }

  function Acquired(run: seq<Event>, s: Sid): nat {
    if run == [] then 0 else Acquired(Init(run), s) + Takings(Last(run), s)
  }

  function GivenBack(run: seq<Event>, s: Sid): nat {
    if run == [] then 0 else GivenBack(Init(run), s) + Returnings(Last(run), s)
  }

  predicate PastConnecting(st: State, s: Sid) {
    s in st.sessions && !st.sessions[s].phase.Starting? && !st.sessions[s].phase.Connecting?
  }

  lemma TakesOnce(st: State, ev: Event, s: Sid)
    requires SessionsWellFormed(st) && Enabled(st, ev)
    ensures PastConnecting(st, s) || Takings(ev, s) == 1 ==> PastConnecting(Step(st, ev), s)
    ensures Takings(ev, s) == 1 ==> !PastConnecting(st, s)
  {
  }

  /** A session takes at most one connection, and has given it back unless it holds it: a session
      that is done gave back exactly what it took, whatever path it left by. */
  lemma {:induction false} ReleasedExactlyOnce(run: seq<Event>, s: Sid)
    requires Valid(run)
    ensures Acquired(run, s) <= 1
    ensures GivenBack(run, s) + (if HeldBy(After(run), s).Some? then 1 else 0) == Acquired(run, s)
    ensures !PastConnecting(After(run), s) ==> Acquired(run, s) == 0
    ensures s in After(run).sessions && After(run).sessions[s].phase.Done? ==> GivenBack(run, s) == Acquired(run, s)
    decreases |run|
  {
    if run != [] {
      InvAlways(Init(run));
      ReleasedExactlyOnce(Init(run), s);
      HeldAfter(After(Init(run)), Last(run), s);
      TakesOnce(After(Init(run)), Last(run), s);
    }
    DoneHoldsNothing(run, s);
  }

  lemma DoneHoldsNothing(run: seq<Event>, s: Sid)
    requires Valid(run)
    ensures s in After(run).sessions && After(run).sessions[s].phase.Done? ==> HeldBy(After(run), s).None?
  {
    InvAlways(run);
  }

  /** Conservation: a pool never hands out more than five connections, and what it has handed out is
      what sessions hold, including those still waiting for the ping. */
  lemma PoolConservation(run: seq<Event>, pool: A.PoolKey)
    requires Valid(run)
    ensures var st := After(run);
      && PoolAt(st, pool).acquired == |Holders(st, pool)|
      && PoolAt(st, pool).acquired + |PoolAt(st, pool).idle| <= 5
      && forall s, t, k :: HeldBy(st, s) == Some(k) && HeldBy(st, t) == Some(k) ==> s == t
  {
    InvAlways(run);
  }
}
