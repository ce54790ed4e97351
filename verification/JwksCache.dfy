/** getPublicKey (internal/auth/jwt.go): a key cache with a time to live under a read-write lock, by any
    number of goroutines. Fetches happen under the write lock, one key of the document at a time. */
module JwksCache {
  import opened Options
  import opened Jwks

  type Tid = nat      // a call of getPublicKey

  /** The document is what the endpoint answered with, if it did. */
  datatype Fetch = Fetch(tid: Tid, kid: string, started: int, doc: Option<seq<Jwk>>)

  datatype Ending = Succeeded(at: int) | Failed

  /** Within the time to live at `at`; after the call's own fetch; or after its own fetch had failed. */
  datatype Why = Fresh(at: int) | AfterFetch | Stale

  /** `seen` is how many fetches had ended when the call was answered. */
  datatype Answer = Served(key: RsaKey, seen: nat, why: Why) | NoKey(seen: nat)

  datatype Pc =
    | Called
    | Reading                          // read lock held
    | HasRead(hit: Option<Answer>)     // read lock held
    | Missed
    | Checking                         // write lock held, from here to Leaving
    | MustFetch
    | Fetching(rest: seq<Jwk>)
    | Fetched(ok: bool)
    | Leaving(answer: Answer)
    | Returned(answer: Answer)

  /** `since` is how many fetches had ended when the call was made, at time `asked`. */
  datatype Call = Call(kid: string, since: nat, asked: int, pc: Pc)

  /** `log` is every key ever accepted; `fetches` every fetch; `ended` how those that have ended did. */
  datatype State = State(
    readers: set<Tid>, writer: Option<Tid>, keys: map<string, RsaKey>, lastFetch: Option<int>, now: int,
    calls: map<Tid, Call>, log: seq<Entry>, fetches: seq<Fetch>, ended: seq<Ending>)

  function Start(now: int): State {
    State({}, None, map[], None, now, map[], [], [], [])
  }

  datatype Event =
    | Tick(seconds: nat)
    | Ask(tid: Tid, kid: string)
    | RLock(tid: Tid)
    | Read(tid: Tid)
    | RUnlock(tid: Tid)
    | Lock(tid: Tid)
    | Recheck(tid: Tid)
    | BeginFetch(tid: Tid, answer: Option<seq<Jwk>>)
    | TakeKey(tid: Tid)
    | EndFetch(tid: Tid)
    | Conclude(tid: Tid)
    | Unlock(tid: Tid)

  predicate Enabled(st: State, ev: Event) {
    if ev.Tick? then true
    else if ev.Ask? then ev.tid !in st.calls
    else
      && ev.tid in st.calls
      && var pc := st.calls[ev.tid].pc;
         match ev
         case RLock(_) => pc.Called? && st.writer.None?
         case Read(_) => pc.Reading?
         case RUnlock(_) => pc.HasRead?
         case Lock(_) => pc.Missed? && st.writer.None? && st.readers == {}
         case Recheck(_) => pc.Checking?
         case BeginFetch(_, _) => pc.MustFetch?
         case TakeKey(_) => pc.Fetching? && pc.rest != []
         case EndFetch(_) => pc.Fetching? && pc.rest == []
         case Conclude(_) => pc.Fetched?
         case Unlock(_) => pc.Leaving?
  }

  /** What the cache has for an id. */
  function Serve(st: State, kid: string, why: Why): Answer {
    if kid in st.keys then Served(st.keys[kid], |st.ended|, why) else NoKey(|st.ended|)
  }

  function NextPc(st: State, ev: Event): Pc
    requires Enabled(st, ev) && !ev.Tick? && !ev.Ask?
  {
    var kid, pc := st.calls[ev.tid].kid, st.calls[ev.tid].pc;
    var hit := kid in st.keys && WithinTTL(st.lastFetch, st.now);
    match ev
    case RLock(_) => Reading
    case Read(_) => HasRead(if hit then Some(Serve(st, kid, Fresh(st.now))) else None)
    case RUnlock(_) => if pc.hit.Some? then Returned(pc.hit.value) else Missed
    case Lock(_) => Checking
    case Recheck(_) => if hit then Leaving(Serve(st, kid, Fresh(st.now))) else MustFetch
    case BeginFetch(_, answer) => if answer.Some? then Fetching(answer.value) else Fetched(false)
    case TakeKey(_) => if Judge(pc.rest[0]).Broken? then Fetched(false) else Fetching(pc.rest[1..])
    case EndFetch(_) => Fetched(true)
    case Conclude(_) => Leaving(Serve(st, kid, if pc.ok then AfterFetch else Stale))
    case Unlock(_) => Returned(pc.answer)
  }

  /** The key an event adds to the cache, if it does. */
  function Accepts(st: State, ev: Event): Option<Entry>
    requires Enabled(st, ev)
  {
    if ev.TakeKey? && Judge(st.calls[ev.tid].pc.rest[0]).Accepted? then
      var jwk := st.calls[ev.tid].pc.rest[0]; Some(Entry(jwk.kid, Judge(jwk).key))
    else None
  }

  /** How an event ends a fetch, if it does. */
  function Ends(st: State, ev: Event): Option<Ending>
    requires Enabled(st, ev)
  {
    if ev.EndFetch? then Some(Succeeded(st.now))
    else if ev.BeginFetch? && ev.answer.None? then Some(Failed)
    else if ev.TakeKey? && Judge(st.calls[ev.tid].pc.rest[0]).Broken? then Some(Failed)
    else None
  }

  function Step(st: State, ev: Event): State
    requires Enabled(st, ev)
  {
    var entry, ending := Accepts(st, ev), Ends(st, ev);
    State(
      if ev.RLock? then st.readers + {ev.tid} else if ev.RUnlock? then st.readers - {ev.tid} else st.readers,
      if ev.Lock? then Some(ev.tid) else if ev.Unlock? then None else st.writer,
      if entry.Some? then st.keys[entry.value.kid := entry.value.key] else st.keys,
      if ev.EndFetch? then Some(st.now) else st.lastFetch,
      if ev.Tick? then st.now + ev.seconds else st.now,
      if ev.Tick? then st.calls
      else if ev.Ask? then st.calls[ev.tid := Call(ev.kid, |st.ended|, st.now, Called)]
      else st.calls[ev.tid := st.calls[ev.tid].(pc := NextPc(st, ev))],
      if entry.Some? then st.log + [entry.value] else st.log,
      if ev.BeginFetch? then st.fetches + [Fetch(ev.tid, st.calls[ev.tid].kid, st.now, ev.answer)] else st.fetches,
      if ending.Some? then st.ended + [ending.value] else st.ended)
  }

  ghost function Reach(now: int, run: seq<Event>): Option<State>
    decreases |run|
  {
    if run == [] then Some(Start(now))
    else
      var before := Reach(now, run[..|run| - 1]);
      if before.Some? && Enabled(before.value, run[|run| - 1]) then Some(Step(before.value, run[|run| - 1])) else None
  }

  ghost predicate Valid(now: int, run: seq<Event>) {
    Reach(now, run).Some?
  }

  ghost function After(now: int, run: seq<Event>): State
    requires Valid(now, run)
  {
    Reach(now, run).value
  }

  /** Every key the documents of these fetches had before their first broken key, in order. */
  ghost function Accepted(fetches: seq<Fetch>): seq<Entry> {
    if fetches == [] then []
    else
      var fetch := fetches[|fetches| - 1];
      Accepted(fetches[..|fetches| - 1]) + if fetch.doc.Some? then Added(fetch.doc.value) else []
  }

  function LastSuccess(ended: seq<Ending>): Option<int> {
    if ended == [] then None
    else
      var ending := ended[|ended| - 1];
      if ending.Succeeded? then Some(ending.at) else LastSuccess(ended[..|ended| - 1])
  }

  predicate Mentions(log: seq<Entry>, kid: string) {
    exists i :: 0 <= i < |log| && log[i].kid == kid
  }

  predicate HoldsRead(pc: Pc) {
    pc.Reading? || pc.HasRead?
  }

  predicate HoldsWrite(pc: Pc) {
    pc.Checking? || pc.MustFetch? || pc.Fetching? || pc.Fetched? || pc.Leaving?
  }

  /** A lock is held and no fetch is under way. */
  predicate LooksInto(pc: Pc) {
    (HoldsRead(pc) || HoldsWrite(pc)) && !pc.Fetching?
  }

  ghost predicate Locked(st: State) {
    && (forall t :: t in st.readers <==> t in st.calls && HoldsRead(st.calls[t].pc))
    && (forall t :: st.writer == Some(t) <==> t in st.calls && HoldsWrite(st.calls[t].pc))
    && (st.writer.Some? ==> st.readers == {})
  }

  /** What is left of the document a fetch is under way with. */
  function Underway(st: State): Option<seq<Jwk>> {
    if st.writer.Some? && st.writer.value in st.calls && st.calls[st.writer.value].pc.Fetching? then
      Some(st.calls[st.writer.value].pc.rest)
    else None
  }

  /** All fetches but one under way have ended; the log is what their documents had, up to what is left
      of the one under way. */
  ghost predicate Accounted(st: State) {
    AccountedFor(Underway(st), st.writer, st.fetches, st.ended, st.log)
  }

  ghost predicate AccountedFor(underway: Option<seq<Jwk>>, writer: Option<Tid>, fetches: seq<Fetch>,
                               ended: seq<Ending>, log: seq<Entry>) {
    if underway.None? then |fetches| == |ended| && log == Accepted(fetches)
    else
      && |fetches| == |ended| + 1 && Some(fetches[|ended|].tid) == writer && fetches[|ended|].doc.Some?
      && log + Added(underway.value) == Accepted(fetches)
      && (Whole(underway.value) <==> Whole(fetches[|ended|].doc.value))
  }

  /** A fetch succeeds if the endpoint answered with a document without a broken key. */
  ghost predicate EndedAsTheyShould(st: State) {
    && |st.ended| <= |st.fetches|
    && forall i :: 0 <= i < |st.ended| ==>
         (st.ended[i].Succeeded? <==> st.fetches[i].doc.Some? && Whole(st.fetches[i].doc.value))
  }

  /** When a fetch starts, its key had never been accepted or the last success is a full TTL ago. */
  ghost predicate Due(fetches: seq<Fetch>, ended: seq<Ending>) {
    |fetches| <= |ended| + 1 && forall j :: 0 <= j < |fetches| ==> DueAt(fetches, ended, j)
  }

  ghost predicate DueAt(fetches: seq<Fetch>, ended: seq<Ending>, j: nat)
    requires j < |fetches| <= |ended| + 1
  {
    !Mentions(Accepted(fetches[..j]), fetches[j].kid) || !WithinTTL(LastSuccess(ended[..j]), fetches[j].started)
  }

  /** Successes are in order of time. */
  ghost predicate InTime(st: State) {
    && st.lastFetch == LastSuccess(st.ended)
    && (st.lastFetch.Some? ==> st.lastFetch.value <= st.now)
    && LastIsLatest(st.ended)
  }

  /** An answer is what the documents fetched up to some moment of the call last said, for its reason. */
  ghost predicate Justified(st: State, t: Tid, c: Call, answer: Answer) {
    && c.since <= answer.seen <= |st.ended| && answer.seen <= |st.fetches|
    && var log := Accepted(st.fetches[..answer.seen]);
       var own := answer.seen > c.since && st.fetches[answer.seen - 1].tid == t;
       match answer
       case NoKey(_) => own && !Mentions(log, c.kid)
       case Served(key, seen, Fresh(at)) =>
         LastSays(log, c.kid, key) && c.asked <= at <= st.now && WithinTTL(LastSuccess(st.ended[..seen]), at)
       case Served(key, seen, AfterFetch) => LastSays(log, c.kid, key) && own && st.ended[seen - 1].Succeeded?
       case Served(key, seen, Stale) => LastSays(log, c.kid, key) && own && st.ended[seen - 1].Failed?
  }

  /** What is true of a call, by where it stands. */
  ghost predicate Knows(st: State, t: Tid, c: Call) {
    && c.since <= |st.ended| && c.asked <= st.now
    && match c.pc
       case HasRead(Some(answer)) => Justified(st, t, c, answer)
       case MustFetch => c.kid !in st.keys || !WithinTTL(st.lastFetch, st.now)
       case Fetched(ok) =>
         && c.since < |st.ended| == |st.fetches| && st.fetches[|st.ended| - 1].tid == t
         && (ok <==> st.ended[|st.ended| - 1].Succeeded?)
       case Leaving(answer) => Justified(st, t, c, answer)
       case Returned(answer) => Justified(st, t, c, answer)
       case _ => true
  }

  ghost predicate AllKnow(st: State) {
    forall t :: t in st.calls ==> Knows(st, t, st.calls[t])
  }

  ghost predicate Inv(st: State) {
    && Locked(st) && Holds(st.keys, st.log) && Accounted(st) && EndedAsTheyShould(st)
    && Due(st.fetches, st.ended) && InTime(st) && AllKnow(st)
  }

  lemma KeepsHolds(st: State, ev: Event)
    requires Holds(st.keys, st.log) && Enabled(st, ev)
    ensures Holds(Step(st, ev).keys, Step(st, ev).log)
  {
    if Accepts(st, ev).Some? {
      HoldsOn(st.keys, st.log, Accepts(st, ev).value);
    }
  }

  lemma KeepsLocked(st: State, ev: Event)
    requires Locked(st) && Enabled(st, ev)
    ensures Locked(Step(st, ev))
  {
  }

  lemma UnderwayNow(st: State, ev: Event)
    requires Locked(st) && Enabled(st, ev)
    ensures ev.TakeKey? || ev.EndFetch? ==> st.writer == Some(ev.tid) && Underway(st) == Some(st.calls[ev.tid].pc.rest)
    ensures !ev.Tick? && !ev.Ask? && LooksInto(st.calls[ev.tid].pc) ==> Underway(st).None?
  {
  }

  lemma UnderwayNext(st: State, ev: Event)
    requires Locked(st) && Enabled(st, ev)
    ensures Underway(Step(st, ev)) ==
            if ev.BeginFetch? then ev.answer
            else if ev.TakeKey? && !Judge(st.calls[ev.tid].pc.rest[0]).Broken? then Some(st.calls[ev.tid].pc.rest[1..])
            else if ev.TakeKey? || ev.EndFetch? then None
            else Underway(st)
    ensures Underway(Step(st, ev)).Some? && !ev.BeginFetch? ==> Step(st, ev).writer == st.writer
    ensures ev.BeginFetch? ==> Step(st, ev).writer == Some(ev.tid)
  {
  }

  lemma TakingOne(doc: seq<Jwk>)
    requires doc != []
    ensures Judge(doc[0]).Broken? ==> Added(doc) == [] && !Whole(doc)
    ensures !Judge(doc[0]).Broken? ==> (Whole(doc) <==> Whole(doc[1..]))
    ensures Judge(doc[0]).Accepted? ==> Added(doc) == [Entry(doc[0].kid, Judge(doc[0]).key)] + Added(doc[1..])
    ensures Judge(doc[0]).Skipped? ==> Added(doc) == Added(doc[1..])
  {
    assert doc == [doc[0]] + doc[1..];
  }

  /** Taking one more key leaves the rest under way, or ends the fetch. */
  lemma TakingKeeps(rest: seq<Jwk>, writer: Option<Tid>, fetches: seq<Fetch>, ended: seq<Ending>, log: seq<Entry>)
    requires rest != [] && AccountedFor(Some(rest), writer, fetches, ended, log)
    ensures Judge(rest[0]).Broken? ==> AccountedFor(None, writer, fetches, ended + [Failed], log)
    ensures Judge(rest[0]).Skipped? ==> AccountedFor(Some(rest[1..]), writer, fetches, ended, log)
    ensures Judge(rest[0]).Accepted? ==>
      AccountedFor(Some(rest[1..]), writer, fetches, ended, log + [Entry(rest[0].kid, Judge(rest[0]).key)])
  {
    TakingOne(rest);
  }

  lemma KeepsAccounted(st: State, ev: Event)
    requires Locked(st) && Accounted(st) && Enabled(st, ev)
    ensures Accounted(Step(st, ev))
  {
    UnderwayNow(st, ev);
    UnderwayNext(st, ev);
    if ev.TakeKey? {
      TakingKeeps(st.calls[ev.tid].pc.rest, st.writer, st.fetches, st.ended, st.log);
    }
    assert ev.BeginFetch? ==> Step(st, ev).fetches[..|st.fetches|] == st.fetches;
  }

  /** The fetch that ends, ends as its document is. */
  lemma EndsAsItShould(st: State, ev: Event)
    requires Locked(st) && Accounted(st) && Enabled(st, ev) && Ends(st, ev).Some?
    ensures var fetches := Step(st, ev).fetches;
      && |fetches| == |st.ended| + 1
      && (Ends(st, ev).value.Succeeded? <==> fetches[|st.ended|].doc.Some? && Whole(fetches[|st.ended|].doc.value))
  {
    UnderwayNow(st, ev);
    if ev.TakeKey? {
      TakingOne(st.calls[ev.tid].pc.rest);
    }
  }

  lemma KeepsEnded(st: State, ev: Event)
    requires Locked(st) && Accounted(st) && EndedAsTheyShould(st) && Enabled(st, ev)
    ensures EndedAsTheyShould(Step(st, ev))
  {
    assert st.fetches <= Step(st, ev).fetches;
    if Ends(st, ev).Some? {
      EndsAsItShould(st, ev);
    }
  }

  lemma MentionsIffCached(st: State, kid: string)
    requires Holds(st.keys, st.log)
    ensures Mentions(st.log, kid) <==> kid in st.keys
    ensures kid in st.keys ==> LastSays(st.log, kid, st.keys[kid])
  {
    assert if kid in st.keys then LastSays(st.log, kid, st.keys[kid])
           else forall i :: 0 <= i < |st.log| ==> st.log[i].kid != kid;
  }

  /** No fetch is under way where the cache may be looked into. */
  lemma Quiet(st: State, t: Tid)
    requires Inv(st) && t in st.calls && LooksInto(st.calls[t].pc)
    ensures |st.fetches| == |st.ended| && st.log == Accepted(st.fetches)
  {
  }

  /** A fetch that begins is due. */
  lemma BeginsWhenDue(st: State, ev: Event)
    requires Inv(st) && Enabled(st, ev) && ev.BeginFetch?
    ensures var next := Step(st, ev);
      |st.ended| == |st.fetches| < |next.fetches| && |next.fetches| <= |next.ended| + 1
      && DueAt(next.fetches, next.ended, |st.fetches|)
  {
    Quiet(st, ev.tid);
    MentionsIffCached(st, st.calls[ev.tid].kid);
    assert Knows(st, ev.tid, st.calls[ev.tid]);
    assert Step(st, ev).fetches[..|st.fetches|] == st.fetches == st.fetches[..|st.fetches|];
    assert Step(st, ev).ended[..|st.ended|] == st.ended;
  }

  /** Only what came before a fetch decides whether it was due. */
  lemma DueStays(fetches: seq<Fetch>, ended: seq<Ending>, fetches': seq<Fetch>, ended': seq<Ending>, j: nat)
    requires j < |fetches| <= |ended| + 1 && DueAt(fetches, ended, j)
    requires fetches <= fetches' && ended <= ended' && |fetches'| <= |ended'| + 1
    ensures DueAt(fetches', ended', j)
  {
    assert fetches'[..j] == fetches[..j] && ended'[..j] == ended[..j];
  }

  lemma KeepsDue(st: State, ev: Event)
    requires Inv(st) && Enabled(st, ev)
    ensures Due(Step(st, ev).fetches, Step(st, ev).ended)
  {
    var fetches', ended' := Step(st, ev).fetches, Step(st, ev).ended;
    KeepsAccounted(st, ev);
    assert |fetches'| <= |ended'| + 1 && st.fetches <= fetches' && st.ended <= ended';
    if ev.BeginFetch? {
      BeginsWhenDue(st, ev);
    }
    forall j | 0 <= j < |fetches'| ensures DueAt(fetches', ended', j) {
      if j < |st.fetches| {
        DueStays(st.fetches, st.ended, fetches', ended', j);
      }
    }
  }

  /** The last success is the latest. */
  ghost predicate LastIsLatest(ended: seq<Ending>) {
    forall i, n :: 0 <= i < n <= |ended| && ended[i].Succeeded? ==>
      LastSuccess(ended[..n]).Some? && ended[i].at <= LastSuccess(ended[..n]).value
  }

  lemma OneMoreEnded(ended: seq<Ending>, ending: Ending)
    requires LastIsLatest(ended)
    requires ending.Succeeded? && LastSuccess(ended).Some? ==> LastSuccess(ended).value <= ending.at
    ensures LastIsLatest(ended + [ending])
    ensures LastSuccess(ended + [ending]) == if ending.Succeeded? then Some(ending.at) else LastSuccess(ended)
  {
    var longer := ended + [ending];
    LastEnded(ended, ending);
    forall i, n | 0 <= i < n <= |longer| && longer[i].Succeeded?
      ensures LastSuccess(longer[..n]).Some? && longer[i].at <= LastSuccess(longer[..n]).value
    {
      if n <= |ended| {
        assert longer[..n] == ended[..n];
      } else {
        assert longer[..n] == longer && ended[..|ended|] == ended;
        assert i < |ended| ==> LastSuccess(ended[..|ended|]).Some?;
      }
    }
  }

  lemma LastEnded(ended: seq<Ending>, ending: Ending)
    ensures LastSuccess(ended + [ending]) == if ending.Succeeded? then Some(ending.at) else LastSuccess(ended)
  {
    assert (ended + [ending])[..|ended|] == ended;
  }

  lemma KeepsInTime(st: State, ev: Event)
    requires InTime(st) && Enabled(st, ev)
    ensures InTime(Step(st, ev))
  {
    if Ends(st, ev).Some? {
      OneMoreEnded(st.ended, Ends(st, ev).value);
    }
  }

  lemma JustifiedOn(st: State, ev: Event, t: Tid, c: Call, answer: Answer)
    requires Enabled(st, ev) && Justified(st, t, c, answer)
    ensures forall pc :: Justified(Step(st, ev), t, c.(pc := pc), answer)
  {
    assert Step(st, ev).fetches[..answer.seen] == st.fetches[..answer.seen];
    assert Step(st, ev).ended[..answer.seen] == st.ended[..answer.seen];
  }

  /** An answer a call has is not affected by others. */
  lemma AnswerStays(st: State, ev: Event, t: Tid, c: Call)
    requires Enabled(st, ev) && Knows(st, t, c) && (c.pc.HasRead? || c.pc.Leaving? || c.pc.Returned?)
    ensures Knows(Step(st, ev), t, c)
  {
    match c.pc
    case HasRead(Some(answer)) => JustifiedOn(st, ev, t, c, answer);
    case Leaving(answer) => JustifiedOn(st, ev, t, c, answer);
    case Returned(answer) => JustifiedOn(st, ev, t, c, answer);
    case _ =>
  }

  lemma OthersKnow(st: State, ev: Event, t: Tid)
    requires Locked(st) && Enabled(st, ev) && t in st.calls && Knows(st, t, st.calls[t])
    requires !ev.Tick? ==> ev.tid != t
    ensures Knows(Step(st, ev), t, st.calls[t])
  {
    var c := st.calls[t];
    if c.pc.HasRead? || c.pc.Leaving? || c.pc.Returned? {
      AnswerStays(st, ev, t, c);
    }
  }

  /** Where the cache is looked into it has what the documents so far last said. */
  lemma ServeIsLastSaid(st: State, t: Tid)
    requires Inv(st) && t in st.calls && LooksInto(st.calls[t].pc)
    ensures var kid, log := st.calls[t].kid, Accepted(st.fetches[..|st.ended|]);
            if kid in st.keys then LastSays(log, kid, st.keys[kid]) else !Mentions(log, kid)
    ensures LastSuccess(st.ended[..|st.ended|]) == st.lastFetch
  {
    Quiet(st, t);
    MentionsIffCached(st, st.calls[t].kid);
    assert st.fetches[..|st.ended|] == st.fetches && st.ended[..|st.ended|] == st.ended;
  }

  lemma FreshIsJustified(st: State, t: Tid)
    requires Inv(st) && t in st.calls && LooksInto(st.calls[t].pc)
    requires st.calls[t].kid in st.keys && WithinTTL(st.lastFetch, st.now)
    ensures Justified(st, t, st.calls[t], Serve(st, st.calls[t].kid, Fresh(st.now)))
  {
    assert Knows(st, t, st.calls[t]);
    ServeIsLastSaid(st, t);
    Quiet(st, t);
  }

  lemma FetchedIsJustified(st: State, t: Tid)
    requires Inv(st) && t in st.calls && st.calls[t].pc.Fetched?
    ensures Justified(st, t, st.calls[t], Serve(st, st.calls[t].kid, if st.calls[t].pc.ok then AfterFetch else Stale))
  {
    assert Knows(st, t, st.calls[t]);
    ServeIsLastSaid(st, t);
  }

  /** A call that looks into the cache. */
  lemma LookingKnows(st: State, ev: Event)
    requires Inv(st) && Enabled(st, ev) && (ev.Read? || ev.Recheck? || ev.Conclude?)
    ensures Knows(Step(st, ev), ev.tid, st.calls[ev.tid].(pc := NextPc(st, ev)))
  {
    var c := st.calls[ev.tid];
    assert Knows(st, ev.tid, c);
    if ev.Conclude? {
      FetchedIsJustified(st, ev.tid);
      JustifiedOn(st, ev, ev.tid, c, Serve(st, c.kid, if c.pc.ok then AfterFetch else Stale));
    } else if c.kid in st.keys && WithinTTL(st.lastFetch, st.now) {
      FreshIsJustified(st, ev.tid);
      JustifiedOn(st, ev, ev.tid, c, Serve(st, c.kid, Fresh(st.now)));
    }
  }

  /** A call that takes its answer away. */
  lemma AnsweredKnows(st: State, ev: Event)
    requires Inv(st) && Enabled(st, ev) && (ev.RUnlock? || ev.Unlock?)
    ensures Knows(Step(st, ev), ev.tid, st.calls[ev.tid].(pc := NextPc(st, ev)))
  {
    var c := st.calls[ev.tid];
    assert Knows(st, ev.tid, c);
    if ev.Unlock? {
      JustifiedOn(st, ev, ev.tid, c, c.pc.answer);
    } else if c.pc.hit.Some? {
      JustifiedOn(st, ev, ev.tid, c, c.pc.hit.value);
    }
  }

  /** A call at a step of its fetch. */
  lemma BeginningKnows(st: State, ev: Event)
    requires Locked(st) && Accounted(st) && Enabled(st, ev) && ev.BeginFetch?
    requires Knows(st, ev.tid, st.calls[ev.tid])
    ensures Knows(Step(st, ev), ev.tid, st.calls[ev.tid].(pc := NextPc(st, ev)))
  {
    UnderwayNow(st, ev);
  }

  lemma FetchingKnows(st: State, ev: Event)
    requires Locked(st) && Accounted(st) && Enabled(st, ev) && (ev.TakeKey? || ev.EndFetch?)
    requires Knows(st, ev.tid, st.calls[ev.tid])
    ensures Knows(Step(st, ev), ev.tid, st.calls[ev.tid].(pc := NextPc(st, ev)))
  {
    UnderwayNow(st, ev);
    if Ends(st, ev).Some? {
      EndsAsItShould(st, ev);
    }
  }

  lemma OwnKnows(st: State, ev: Event)
    requires Inv(st) && Enabled(st, ev) && !ev.Tick? && !ev.Ask?
    ensures Knows(Step(st, ev), ev.tid, st.calls[ev.tid].(pc := NextPc(st, ev)))
  {
    assert Knows(st, ev.tid, st.calls[ev.tid]);
    if ev.Read? || ev.Recheck? || ev.Conclude? {
      LookingKnows(st, ev);
    } else if ev.RUnlock? || ev.Unlock? {
      AnsweredKnows(st, ev);
    } else if ev.BeginFetch? {
      BeginningKnows(st, ev);
    } else if ev.TakeKey? || ev.EndFetch? {
      FetchingKnows(st, ev);
    }
  }

  lemma KeepsKnown(st: State, ev: Event)
    requires Inv(st) && Enabled(st, ev)
    ensures AllKnow(Step(st, ev))
  {
    var next := Step(st, ev);
    forall t | t in next.calls ensures Knows(next, t, next.calls[t]) {
      assert t in st.calls ==> Knows(st, t, st.calls[t]);
      if ev.Tick? || ev.tid != t {
        OthersKnow(st, ev, t);
      } else if !ev.Ask? {
        OwnKnows(st, ev);
      }
    }
  }

  lemma {:induction false} InvAlways(now: int, run: seq<Event>)
    requires Valid(now, run)
    ensures Inv(After(now, run))
    decreases |run|
  {
    if run != [] {
      var st, ev := After(now, run[..|run| - 1]), run[|run| - 1];
      InvAlways(now, run[..|run| - 1]);
      KeepsHolds(st, ev);
      KeepsLocked(st, ev);
      KeepsAccounted(st, ev);
      KeepsEnded(st, ev);
      KeepsDue(st, ev);
      KeepsInTime(st, ev);
      KeepsKnown(st, ev);
    }
  }

  /** Whatever a call returns is what the documents of the fetches ended at some moment of the call last
      say of the id, those that failed part way included: for the kind of reason given, and no key only
      where they say nothing of it. */
  lemma AnswersAreLastSaid(now: int, run: seq<Event>, t: Tid)
    requires Valid(now, run) && t in After(now, run).calls && After(now, run).calls[t].pc.Returned?
    ensures var st := After(now, run); var c := st.calls[t];
            Justified(st, t, c, c.pc.answer)
  {
    InvAlways(now, run);
    assert Knows(After(now, run), t, After(now, run).calls[t]);
  }

  /** While no fetch is under way, the cache is the last-write-wins content of all documents so far. */
  lemma CacheIsHistory(now: int, run: seq<Event>)
    requires Valid(now, run) && After(now, run).writer.None?
    ensures var st := After(now, run); Holds(st.keys, Accepted(st.fetches)) && st.lastFetch == LastSuccess(st.ended)
    ensures |After(now, run).ended| == |After(now, run).fetches|
  {
    InvAlways(now, run);
  }

  /** No key is ever dropped. */
  lemma {:induction false} DomainNeverShrinks(now: int, run: seq<Event>, n: nat)
    requires Valid(now, run) && n <= |run|
    ensures Valid(now, run[..n]) && After(now, run[..n]).keys.Keys <= After(now, run).keys.Keys
    decreases |run|
  {
    if n == |run| {
      assert run[..n] == run;
    } else {
      assert run[..|run| - 1][..n] == run[..n];
      DomainNeverShrinks(now, run[..|run| - 1], n);
    }
  }

  /** A fetch for a key some earlier document had starts a full TTL after every success before it, however
      many calls queue for the lock. */
  lemma FetchesAreSpaced(now: int, run: seq<Event>, i: nat, j: nat)
    requires Valid(now, run) && i < j < |After(now, run).fetches|
    requires var st := After(now, run); Mentions(Accepted(st.fetches[..j]), st.fetches[j].kid)
    ensures i < |After(now, run).ended|
    ensures var st := After(now, run);
            st.ended[i].Succeeded? ==> st.fetches[j].started - st.ended[i].at >= 3600
  {
    InvAlways(now, run);
    var st := After(now, run);
    assert DueAt(st.fetches, st.ended, j);
  }

  /** Under the write lock a fetch is decided on exactly if the id was never accepted, or every success is at
      least an hour ago. */
  lemma FetchesExactlyWhenDue(now: int, run: seq<Event>, t: Tid)
    requires Valid(now, run + [Recheck(t)])
    ensures Valid(now, run) && t in After(now, run).calls
    ensures var st, next := After(now, run), After(now, run + [Recheck(t)]);
            next.calls[t].pc.MustFetch? <==>
            || !Mentions(Accepted(st.fetches), st.calls[t].kid)
            || forall i :: 0 <= i < |st.ended| && st.ended[i].Succeeded? ==> st.now - st.ended[i].at >= 3600
  {
    assert (run + [Recheck(t)])[..|run|] == run;
    var st := After(now, run);
    InvAlways(now, run);
    Quiet(st, t);
    MentionsIffCached(st, st.calls[t].kid);
    LastWithin(st.ended, |st.ended|, st.now);
    assert st.ended[..|st.ended|] == st.ended;
  }

  /** Some success is less than an hour old exactly if the last one is. */
  lemma LastWithin(ended: seq<Ending>, n: nat, at: int)
    requires LastIsLatest(ended) && n <= |ended|
    ensures WithinTTL(LastSuccess(ended[..n]), at) <==>
      exists i :: 0 <= i < n && ended[i].Succeeded? && at - ended[i].at < 3600
  {
    if LastSuccess(ended[..n]).Some? {
      var i := SuccessOf(ended[..n]);
      assert ended[..n][i] == ended[i];
    }
  }

  lemma {:induction false} SuccessOf(ended: seq<Ending>) returns (i: nat)
    requires LastSuccess(ended).Some?
    ensures i < |ended| && ended[i] == Succeeded(LastSuccess(ended).value)
  {
    if ended[|ended| - 1].Succeeded? {
      i := |ended| - 1;
    } else {
      i := SuccessOf(ended[..|ended| - 1]);
    }
  }

  /** A key served without a fetch of the call's own is served, at some second of the call, less than an hour
      after a fetch that had succeeded; with a fetch of its own, whatever that came to. */
  lemma ServedWithinTheHour(now: int, run: seq<Event>, t: Tid)
    requires Valid(now, run) && t in After(now, run).calls && After(now, run).calls[t].pc.Returned?
    requires After(now, run).calls[t].pc.answer.Served?
    ensures var st := After(now, run);
            var c := st.calls[t];
            var answer := c.pc.answer;
            && answer.seen <= |st.ended| && answer.seen <= |st.fetches|
            && if answer.why.Fresh? then
                 && c.asked <= answer.why.at <= st.now
                 && exists i :: 0 <= i < answer.seen && st.ended[i].Succeeded? && answer.why.at - st.ended[i].at < 3600
               else answer.seen > c.since && st.fetches[answer.seen - 1].tid == t
  {
    AnswersAreLastSaid(now, run, t);
    InvAlways(now, run);
    var st := After(now, run);
    var answer := st.calls[t].pc.answer;
    if answer.why.Fresh? {
      LastWithin(st.ended, answer.seen, answer.why.at);
    }
  }

  // ----- A call by itself -----

  lemma Extend(now: int, run: seq<Event>, ev: Event) returns (longer: seq<Event>)
    requires Valid(now, run) && Enabled(After(now, run), ev)
    ensures longer == run + [ev] && Valid(now, longer) && After(now, longer) == Step(After(now, run), ev)
  {
    longer := run + [ev];
    assert longer[..|longer| - 1] == run;
  }

  /** No lock is held. */
  predicate Idle(st: State) {
    st.writer.None? && st.readers == {}
  }

  /** Where a call stands, and that it alone holds the lock it holds. */
  predicate Alone(st: State, t: Tid, pc: Pc) {
    && t in st.calls && st.calls[t].pc == pc
    && if HoldsWrite(pc) then st.writer == Some(t) && st.readers == {}
       else st.writer.None? && st.readers == if HoldsRead(pc) then {t} else {}
  }

  /** The first look: the answer, or none. */
  lemma LooksAlone(now: int, run: seq<Event>, t: Tid, kid: string) returns (longer: seq<Event>)
    requires Valid(now, run) && Idle(After(now, run)) && t !in After(now, run).calls
    ensures Valid(now, longer)
    ensures var st, next := After(now, run), After(now, longer);
            && (kid in st.keys && st.lastFetch.Some? && st.now - st.lastFetch.value < 3600 ==>
                 Alone(next, t, Returned(Served(st.keys[kid], |st.ended|, Fresh(st.now)))))
            && (!(kid in st.keys && st.lastFetch.Some? && st.now - st.lastFetch.value < 3600) ==>
                 Alone(next, t, Missed))
            && next == st.(calls := next.calls) && next.calls[t].kid == kid
  {
    longer := AsksAlone(now, run, t, kid);
    longer := Extend(now, longer, Read(t));
    longer := Extend(now, longer, RUnlock(t));
    assert {t} - {t} == {};
  }

  lemma AsksAlone(now: int, run: seq<Event>, t: Tid, kid: string) returns (longer: seq<Event>)
    requires Valid(now, run) && Idle(After(now, run)) && t !in After(now, run).calls
    ensures Valid(now, longer) && Alone(After(now, longer), t, Reading)
    ensures var st, next := After(now, run), After(now, longer);
            next == st.(calls := next.calls, readers := {t}) && next.calls[t].kid == kid
  {
    longer := Extend(now, run, Ask(t, kid));
    longer := Extend(now, longer, RLock(t));
    assert {} + {t} == {t};
  }

  /** The document is taken key by key, up to its first broken one. */
  lemma {:induction false} TakesAlone(now: int, run: seq<Event>, t: Tid, rest: seq<Jwk>) returns (longer: seq<Event>)
    requires Valid(now, run) && Alone(After(now, run), t, Fetching(rest))
    ensures Valid(now, longer) && Alone(After(now, longer), t, Fetched(Whole(rest)))
    ensures var st, next := After(now, run), After(now, longer);
            && next.log == st.log + Added(rest) && |next.ended| == |st.ended| + 1
            && next.fetches == st.fetches && next.now == st.now && next.calls[t].kid == st.calls[t].kid
    decreases |rest|
  {
    var st := After(now, run);
    if rest == [] {
      longer := Extend(now, run, EndFetch(t));
      assert st.log + [] == st.log;
    } else {
      TakingOne(rest);
      longer := Extend(now, run, TakeKey(t));
      if Judge(rest[0]).Broken? {
        assert st.log + [] == st.log;
      } else {
        longer := TakesAlone(now, longer, t, rest[1..]);
        if Judge(rest[0]).Accepted? {
          LogGrows(st.log, [Entry(rest[0].kid, Judge(rest[0]).key)], Added(rest[1..]));
        }
      }
    }
  }

  lemma LogGrows(log: seq<Entry>, one: seq<Entry>, more: seq<Entry>)
    ensures (log + one) + more == log + (one + more)
  {
  }

  /** From the first look to the fetch. */
  lemma BeginsAlone(now: int, run: seq<Event>, t: Tid, doc: Option<seq<Jwk>>) returns (longer: seq<Event>)
    requires Valid(now, run) && Alone(After(now, run), t, Missed)
    requires var st := After(now, run);
             !(st.calls[t].kid in st.keys && st.lastFetch.Some? && st.now - st.lastFetch.value < 3600)
    ensures Valid(now, longer)
    ensures var st, next := After(now, run), After(now, longer);
            && Alone(next, t, if doc.Some? then Fetching(doc.value) else Fetched(false))
            && next.fetches == st.fetches + [Fetch(t, st.calls[t].kid, st.now, doc)] && next.log == st.log
            && |next.ended| == |st.ended| + (if doc.Some? then 0 else 1)
            && next.now == st.now && next.calls[t].kid == st.calls[t].kid
  {
    longer := Extend(now, run, Lock(t));
    longer := Extend(now, longer, Recheck(t));
    longer := Extend(now, longer, BeginFetch(t, doc));
  }

  /** From the end of the fetch to the answer. */
  lemma ConcludesAlone(now: int, run: seq<Event>, t: Tid, ok: bool) returns (longer: seq<Event>)
    requires Valid(now, run) && Alone(After(now, run), t, Fetched(ok))
    ensures Valid(now, longer)
    ensures var st, next := After(now, run), After(now, longer);
            var kid := st.calls[t].kid;
            && Idle(next) && next == st.(calls := next.calls, writer := None)
            && Alone(next, t, Returned(
                 if kid in st.keys then Served(st.keys[kid], |st.ended|, if ok then AfterFetch else Stale)
                 else NoKey(|st.ended|)))
  {
    longer := Extend(now, run, Conclude(t));
    longer := Extend(now, longer, Unlock(t));
  }

  /** A call nobody interferes with comes to its end: it is answered at once if it has the key and the last
      success is less than an hour ago; else it fetches, adds what the endpoint has, and is answered with what
      there is then. */
  lemma CallAlone(now: int, run: seq<Event>, t: Tid, kid: string, doc: Option<seq<Jwk>>) returns (longer: seq<Event>)
    requires Valid(now, run) && Idle(After(now, run)) && t !in After(now, run).calls
    ensures Valid(now, longer) && Idle(After(now, longer))
    ensures t in After(now, longer).calls && After(now, longer).calls[t].pc.Returned?
    ensures var st, next := After(now, run), After(now, longer);
            var answer := next.calls[t].pc.answer;
            if kid in st.keys && st.lastFetch.Some? && st.now - st.lastFetch.value < 3600 then
              next.fetches == st.fetches && answer == Served(st.keys[kid], |st.ended|, Fresh(st.now))
            else
              && next.fetches == st.fetches + [Fetch(t, kid, st.now, doc)]
              && next.log == st.log + (if doc.Some? then Added(doc.value) else [])
              && answer ==
                 if kid !in next.keys then NoKey(|st.ended| + 1)
                 else
                   Served(next.keys[kid], |st.ended| + 1, if doc.Some? && Whole(doc.value) then AfterFetch else Stale)
  {
    var st := After(now, run);
    longer := LooksAlone(now, run, t, kid);
    if !(kid in st.keys && st.lastFetch.Some? && st.now - st.lastFetch.value < 3600) {
      longer := BeginsAlone(now, longer, t, doc);
      if doc.Some? {
        longer := TakesAlone(now, longer, t, doc.value);
      }
      longer := ConcludesAlone(now, longer, t, doc.Some? && Whole(doc.value));
    }
  }
}
