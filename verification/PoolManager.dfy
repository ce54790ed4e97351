/** GetOrCreatePool (internal/pool/manager.go): double-checked locking over a global map, by any number
    of goroutines, and the atomic get-or-create it amounts to. */
module PoolManager {
  import opened Options
  import opened SessionAutomaton

  type Tid = nat      // a call of GetOrCreatePool
  type PoolId = nat

  datatype Result = Got(pool: PoolId) | Failed

  /** Where a call is; the read lock is held in Reading and HasRead, the write lock from Checking to
      Leaving. */
  datatype Pc =
    | Called(key: PoolKey)
    | Reading(key: PoolKey)
    | HasRead(key: PoolKey, found: Option<PoolId>)
    | Missed(key: PoolKey)
    | Checking(key: PoolKey)
    | Creating(key: PoolKey)
    | Created(key: PoolKey, pool: PoolId)
    | Leaving(key: PoolKey, result: Result)
    | Returned(key: PoolKey, result: Result)

  /** `made` is every pool NewWithConfig ever made. */
  datatype State = State(readers: set<Tid>, writer: Option<Tid>, pools: map<PoolKey, PoolId>, calls: map<Tid, Pc>,
                         made: set<PoolId>)

  const INIT := State({}, None, map[], map[], {})

  datatype Event =
    | Call(tid: Tid, key: PoolKey)
    | RLock(tid: Tid)
    | Read(tid: Tid)
    | RUnlock(tid: Tid)
    | Lock(tid: Tid)
    | Recheck(tid: Tid)
    | Make(tid: Tid, outcome: Result)   // parse the configuration and make the pool, or fail
    | Insert(tid: Tid)
    | Unlock(tid: Tid)

  predicate Enabled(st: State, ev: Event) {
    if ev.Call? then ev.tid !in st.calls
    else
      && ev.tid in st.calls
      && var pc := st.calls[ev.tid];
         match ev
         case RLock(_) => pc.Called? && st.writer.None?
         case Read(_) => pc.Reading?
         case RUnlock(_) => pc.HasRead?
         case Lock(_) => pc.Missed? && st.writer.None? && st.readers == {}
         case Recheck(_) => pc.Checking?
         case Make(_, outcome) => pc.Creating? && (outcome.Got? ==> outcome.pool !in st.made)
         case Insert(_) => pc.Created?
         case Unlock(_) => pc.Leaving?
  }

  function NextPc(st: State, ev: Event): Pc
    requires Enabled(st, ev)
  {
    if ev.Call? then Called(ev.key)
    else
      var pc := st.calls[ev.tid];
      match ev
      case RLock(_) => Reading(pc.key)
      case Read(_) => HasRead(pc.key, Find(st.pools, pc.key))
      case RUnlock(_) => if pc.found.Some? then Returned(pc.key, Got(pc.found.value)) else Missed(pc.key)
      case Lock(_) => Checking(pc.key)
      case Recheck(_) => if pc.key in st.pools then Leaving(pc.key, Got(st.pools[pc.key])) else Creating(pc.key)
      case Make(_, outcome) => if outcome.Got? then Created(pc.key, outcome.pool) else Leaving(pc.key, Failed)
      case Insert(_) => Leaving(pc.key, Got(pc.pool))
      case Unlock(_) => Returned(pc.key, pc.result)
  }

  function Step(st: State, ev: Event): State
    requires Enabled(st, ev)
  {
    State(
      if ev.RLock? then st.readers + {ev.tid} else if ev.RUnlock? then st.readers - {ev.tid} else st.readers,
      if ev.Lock? then Some(ev.tid) else if ev.Unlock? then None else st.writer,
      if ev.Insert? then st.pools[st.calls[ev.tid].key := st.calls[ev.tid].pool] else st.pools,
      st.calls[ev.tid := NextPc(st, ev)],
      if ev.Make? && ev.outcome.Got? then st.made + {ev.outcome.pool} else st.made)
  }

  ghost function Reach(run: seq<Event>): Option<State>
    decreases |run|
  {
    if run == [] then Some(INIT)
    else
      var before := Reach(run[..|run| - 1]);
      if before.Some? && Enabled(before.value, run[|run| - 1]) then Some(Step(before.value, run[|run| - 1])) else None
  }

  ghost predicate Valid(run: seq<Event>) {
    Reach(run).Some?
  }

  ghost function After(run: seq<Event>): State
    requires Valid(run)
  {
    Reach(run).value
  }

  predicate HoldsRead(pc: Pc) {
    pc.Reading? || pc.HasRead?
  }

  predicate HoldsWrite(pc: Pc) {
    pc.Checking? || pc.Creating? || pc.Created? || pc.Leaving?
  }

  /** Readers and the writer are who they say, and a writer is alone. */
  ghost predicate Locked(st: State) {
    && (forall t :: t in st.readers <==> t in st.calls && HoldsRead(st.calls[t]))
    && (forall t :: st.writer == Some(t) <==> t in st.calls && HoldsWrite(st.calls[t]))
    && (st.writer.Some? ==> st.readers == {})
  }

  /** What a call knows of the map is still so. */
  predicate Knows(st: State, pc: Pc) {
    match pc
    case HasRead(key, found) => found.Some? ==> Find(st.pools, key) == found
    case Creating(key) => key !in st.pools
    case Created(key, pool) => key !in st.pools && pool in st.made && pool !in st.pools.Values
    case Leaving(key, Got(pool)) => Find(st.pools, key) == Some(pool)
    case Returned(key, Got(pool)) => Find(st.pools, key) == Some(pool)
    case _ => true
  }

  ghost predicate Inv(st: State) {
    && Locked(st)
    && st.pools.Values <= st.made
    && forall t :: t in st.calls ==> Knows(st, st.calls[t])
  }

  lemma InvStep(st: State, ev: Event)
    requires Inv(st) && Enabled(st, ev)
    ensures Inv(Step(st, ev))
  {
    var st' := Step(st, ev);
    forall t | t in st'.calls ensures Knows(st', st'.calls[t]) {
      if t != ev.tid {
        assert Knows(st, st.calls[t]);
      }
    }
  }

  lemma {:induction false} InvAlways(run: seq<Event>)
    requires Valid(run)
    ensures Inv(After(run))
    decreases |run|
  {
    if run != [] {
      InvAlways(run[..|run| - 1]);
      InvStep(After(run[..|run| - 1]), run[|run| - 1]);
    }
  }

  // ----- The atomic operation -----

  datatype Atomic = Atomic(pools: map<PoolKey, PoolId>, calls: map<Tid, AtomicCall>)

  datatype AtomicCall = Pending(key: PoolKey) | Answered(key: PoolKey, result: Result)

  /** One step of a get-or-create that takes no time: a call arrives, or is answered; an answer is the
      pool that is there, or a new pool put there, or a failure that leaves everything as it was. */
  ghost predicate AtomicNext(a: Atomic, b: Atomic) {
    exists t :: Arrives(a, b, t) || Answers(a, b, t)
  }

  ghost predicate Arrives(a: Atomic, b: Atomic, t: Tid) {
    t !in a.calls && exists key :: b == a.(calls := a.calls[t := Pending(key)])
  }

  ghost predicate Answers(a: Atomic, b: Atomic, t: Tid) {
    && t in a.calls && a.calls[t].Pending?
    && var key := a.calls[t].key;
       if key in a.pools then b == a.(calls := a.calls[t := Answered(key, Got(a.pools[key]))])
       else
         || b == a.(calls := a.calls[t := Answered(key, Failed)])
         || exists pool :: pool !in a.pools.Values
                           && b == Atomic(a.pools[key := pool], a.calls[t := Answered(key, Got(pool))])
  }

  function AbstractCall(pc: Pc): AtomicCall {
    match pc
    case HasRead(key, Some(pool)) => Answered(key, Got(pool))
    case Leaving(key, result) => Answered(key, result)
    case Returned(key, result) => Answered(key, result)
    case _ => Pending(pc.key)
  }

  function Abstract(st: State): Atomic {
    Atomic(st.pools, map t | t in st.calls :: AbstractCall(st.calls[t]))
  }

  /** Every step of every interleaving is a step of the atomic operation or leaves it alone. */
  lemma RefinesAtomic(run: seq<Event>, ev: Event)
    requires Valid(run) && Enabled(After(run), ev)
    ensures var a, b := Abstract(After(run)), Abstract(Step(After(run), ev)); a == b || AtomicNext(a, b)
  {
    InvAlways(run);
    var st := After(run);
    var a, b := Abstract(st), Abstract(Step(st, ev));
    assert b.calls == a.calls[ev.tid := AbstractCall(NextPc(st, ev))];
    if ev.Call? {
      assert Arrives(a, b, ev.tid);
    } else {
      assert Knows(st, st.calls[ev.tid]);
      if AbstractCall(NextPc(st, ev)) == AbstractCall(st.calls[ev.tid]) {
        assert a.calls[ev.tid := a.calls[ev.tid]] == a.calls;
      } else {
        AnswersAt(st, ev);
      }
    }
  }

  lemma AnswersAt(st: State, ev: Event)
    requires Inv(st) && Enabled(st, ev) && !ev.Call?
    requires AbstractCall(NextPc(st, ev)) != AbstractCall(st.calls[ev.tid])
    ensures Answers(Abstract(st), Abstract(Step(st, ev)), ev.tid)
  {
    var a, b := Abstract(st), Abstract(Step(st, ev));
    var pc := st.calls[ev.tid];
    assert Knows(st, pc);
    assert a.calls[ev.tid] == AbstractCall(pc);
    assert b.calls == a.calls[ev.tid := AbstractCall(NextPc(st, ev))];
    assert ev.Read? || ev.Recheck? || ev.Make? || ev.Insert?;
    if ev.Insert? {
      assert b == Atomic(a.pools[pc.key := pc.pool], a.calls[ev.tid := Answered(pc.key, Got(pc.pool))]);
    }
  }

  /** All successful callers of a key are given the one pool that the map has for it. */
  lemma SameKeySamePool(run: seq<Event>, t: Tid, u: Tid)
    requires Valid(run) && t in After(run).calls && u in After(run).calls
    requires After(run).calls[t].Returned? && After(run).calls[t].result.Got?
    requires After(run).calls[u].Returned? && After(run).calls[u].result.Got?
    requires After(run).calls[t].key == After(run).calls[u].key
    ensures var key := After(run).calls[t].key;
      key in After(run).pools && After(run).calls[t].result == After(run).calls[u].result == Got(After(run).pools[key])
  {
    InvAlways(run);
    assert Knows(After(run), After(run).calls[t]) && Knows(After(run), After(run).calls[u]);
  }

  predicate Grows(a: map<PoolKey, PoolId>, b: map<PoolKey, PoolId>) {
    forall key :: key in a ==> key in b && b[key] == a[key]
  }

  /** No entry is ever replaced or removed. */
  lemma {:induction false} EntriesStay(run: seq<Event>, n: nat)
    requires Valid(run) && n <= |run|
    ensures Valid(run[..n]) && Grows(After(run[..n]).pools, After(run).pools)
    decreases |run|
  {
    if n == |run| {
      assert run[..n] == run;
    } else {
      var before := run[..|run| - 1];
      assert before[..n] == run[..n];
      EntriesStay(before, n);
      InvAlways(before);
      var ev := run[|run| - 1];
      if ev.Insert? {
        assert Knows(After(before), After(before).calls[ev.tid]);
      }
    }
  }

  /** Call `t` of the run was for `key`. */
  predicate CallFor(run: seq<Event>, t: Tid, key: PoolKey) {
    exists c :: 0 <= c < |run| && run[c] == Call(t, key)
  }

  predicate MakesFor(run: seq<Event>, i: int, key: PoolKey) {
    0 <= i < |run| && run[i].Make? && run[i].outcome.Got? && CallFor(run[..i], run[i].tid, key)
  }

  /** A call keeps the key it was made with. */
  lemma {:induction false} KeyOfCall(run: seq<Event>, t: Tid, key: PoolKey)
    requires Valid(run)
    ensures CallFor(run, t, key) <==> t in After(run).calls && After(run).calls[t].key == key
    decreases |run|
  {
    if run != [] {
      var before := run[..|run| - 1];
      KeyOfCall(before, t, key);
      if c :| 0 <= c < |run| && run[c] == Call(t, key) {
        if c < |run| - 1 {
          assert before[c] == Call(t, key);
        }
      }
      if c :| 0 <= c < |before| && before[c] == Call(t, key) {
        assert run[c] == Call(t, key);
      }
      if run[|run| - 1] == Call(t, key) {
        assert CallFor(run, t, key);
      }
    }
  }

  /** Once a pool was made for a key it is in the map, or about to be put there under the write lock. */
  lemma {:induction false} MadeIsKept(run: seq<Event>, i: int, key: PoolKey)
    requires Valid(run) && MakesFor(run, i, key)
    ensures key !in After(run).pools ==>
      exists t :: t in After(run).calls && After(run).calls[t].Created? && After(run).calls[t].key == key
    decreases |run|
  {
    var before := run[..|run| - 1];
    if i == |run| - 1 {
      KeyOfCall(before, run[i].tid, key);
      assert After(run).calls[run[i].tid].Created?;
    } else {
      assert before[..i] == run[..i];
      MadeIsKept(before, i, key);
      EntriesStay(run, |run| - 1);
      if key !in After(before).pools {
        var t :| t in After(before).calls && After(before).calls[t].Created? && After(before).calls[t].key == key;
        if run[|run| - 1].tid != t {
          assert After(run).calls[t] == After(before).calls[t];
        }
      }
    }
  }

  lemma NobodyMakesAgain(run: seq<Event>, i: int, key: PoolKey)
    requires Valid(run) && MakesFor(run, i, key)
    ensures forall u :: u in After(run).calls ==> After(run).calls[u] != Creating(key)
  {
    MadeIsKept(run, i, key);
    InvAlways(run);
    forall u | u in After(run).calls ensures After(run).calls[u] != Creating(key) {
      assert Knows(After(run), After(run).calls[u]);
    }
  }

  /** At most one pool is ever made for a key, however many goroutines miss it at once. */
  lemma AtMostOnePoolPerKey(run: seq<Event>, i: int, j: int, key: PoolKey)
    requires Valid(run) && MakesFor(run, i, key) && MakesFor(run, j, key)
    ensures i == j
  {
    var first, second := if i < j then i else j, if i < j then j else i;
    EntriesStay(run, second);
    EntriesStay(run, second + 1);
    assert run[..second + 1][..second] == run[..second];
    KeyOfCall(run[..second], run[second].tid, key);
    assert After(run[..second]).calls[run[second].tid] == Creating(key);
    if first != second {
      assert run[..second][..first] == run[..first];
      NobodyMakesAgain(run[..second], first, key);
    }
  }

  // ----- A call by itself -----

  lemma Extend(run: seq<Event>, ev: Event) returns (longer: seq<Event>)
    requires Valid(run) && Enabled(After(run), ev)
    ensures longer == run + [ev] && Valid(longer) && After(longer) == Step(After(run), ev)
  {
    longer := run + [ev];
    assert longer[..|longer| - 1] == run;
  }

  /** A call nobody interferes with comes to its end: with the pool that is there, else with the one that could
      be made, which is then there, or else with a failure. */
  lemma CallAlone(run: seq<Event>, t: Tid, key: PoolKey, outcome: Result) returns (longer: seq<Event>)
    requires Valid(run) && After(run).writer.None? && After(run).readers == {} && t !in After(run).calls
    requires outcome.Got? ==> outcome.pool !in After(run).made
    ensures Valid(longer) && After(longer).writer.None? && After(longer).readers == {} && t in After(longer).calls
    ensures key in After(run).pools ==>
      After(longer).calls[t] == Returned(key, Got(After(run).pools[key])) && After(longer).pools == After(run).pools
    ensures key !in After(run).pools ==>
      && After(longer).calls[t] == Returned(key, outcome)
      && After(longer).pools == if outcome.Got? then After(run).pools[key := outcome.pool] else After(run).pools
  {
    longer := Extend(run, Call(t, key));
    longer := Extend(longer, RLock(t));
    longer := Extend(longer, Read(t));
    longer := Extend(longer, RUnlock(t));
    assert {} + {t} - {t} == {};
    if key !in After(run).pools {
      longer := MakesAlone(longer, t, key, outcome);
    }
  }

  lemma MakesAlone(run: seq<Event>, t: Tid, key: PoolKey, outcome: Result) returns (longer: seq<Event>)
    requires Valid(run) && After(run).writer.None? && After(run).readers == {}
    requires t in After(run).calls && After(run).calls[t] == Missed(key) && key !in After(run).pools
    requires outcome.Got? ==> outcome.pool !in After(run).made
    ensures Valid(longer) && After(longer).writer.None? && After(longer).readers == {} && t in After(longer).calls
    ensures After(longer).calls[t] == Returned(key, outcome)
    ensures After(longer).pools == if outcome.Got? then After(run).pools[key := outcome.pool] else After(run).pools
  {
    longer := Extend(run, Lock(t));
    longer := Extend(longer, Recheck(t));
    longer := Extend(longer, Make(t, outcome));
    if outcome.Got? {
      longer := Extend(longer, Insert(t));
    }
    longer := Extend(longer, Unlock(t));
  }

  // ----- The code -----

  /** The global map, as one call sees it: other goroutines may act between its critical sections. */
  class PoolTable {
    var pools: map<PoolKey, PoolId>

    constructor ()
      ensures pools == map[]
    {
      pools := map[];
    }

    /** Other goroutines leave the map as `later`; EntriesStay says that it can only have grown. */
    method OthersRun(later: map<PoolKey, PoolId>)
      modifies this
      ensures pools == if Grows(old(pools), later) then later else old(pools)
    {
      if Grows(pools, later) {
        pools := later;
      }
    }

    /** `made` is what parsing the configuration and making a pool comes to; others leave the map as
        `first` before the read lock is taken and as `second` before the write lock is. `before` is the
        map as the call found it when it was answered. */
    method GetOrCreatePool(key: PoolKey, made: Result, first: map<PoolKey, PoolId>, second: map<PoolKey, PoolId>)
      returns (r: Result, ghost before: map<PoolKey, PoolId>)
      modifies this
      ensures Grows(old(pools), before)
      ensures key in before ==> r == Got(before[key]) && (Grows(before, pools))
      ensures key !in before ==> r == made && pools == if made.Got? then before[key := made.pool] else before
      ensures key in old(pools) ==> r == Got(old(pools)[key])
    {
      OthersRun(first);
      before := pools;
      var found := Find(pools, key);
      OthersRun(second);
      if found.Some? {
        return Got(found.value), before;
      }
      before := pools;
      if key in pools {
        return Got(pools[key]), before;
      }
      if made.Failed? {
        return Failed, before;
      }
      pools := pools[key := made.pool];
      r := made;
    }
  }
}
