/** In what condition a session finds the connection it takes from a pool. */
module ProxyConnections {
  import opened Options
  import opened CancelKeys
  import opened PooledBackend
  import opened ProxySystem
  import opened ProxyInvariant
  import A = SessionAutomaton

  /** Someone left the loop with a reply outstanding or a send failed, or a reset failed. */
  ghost predicate Tainted(run: seq<Event>, k: Key) {
    exists i :: 0 <= i < |run| && Taints(run[i], k)
  }

  predicate Taints(ev: Event, k: Key) {
    && ev.Does?
    && ((ev.act.LeaveMid? && ev.act.conn == k) || (ev.act.SendFail? && ev.act.conn == k)
        || (ev.act.Reset? && ev.act.conn == k && !ev.act.ok))
  }

  /** The condition of a connection at each point of its holder's session. */
  predicate ConditionFor(se: A.Session, b: Backend) {
    if A.InLoop(se) then
      !b.broken && (se.phase.Looping? ==> b.unread == []) && OnlyLastReady(b.unread)
    else if se.phase.Closing? || se.phase.Resetting? then !b.broken && b.unread == []
    else Clean(b)
  }

  ghost predicate ConnsConditioned(run: seq<Event>)
    requires Valid(run)
  {
    var st := After(run);
    forall k :: k in st.conns && !Tainted(run, k) ==>
      && ((forall s :: HeldBy(st, s) != Some(k)) ==> Clean(st.conns[k].backend))
      && (forall s :: HeldBy(st, s) == Some(k) ==> ConditionFor(st.sessions[s], st.conns[k].backend))
  }

  lemma PingKeepsClean(b: Backend)
    requires Clean(b)
    ensures Exec(b, Ping, false).1 && Clean(Exec(b, Ping, false).0)
  {
    ExecKeepsReadyReplies(b, Ping);
  }

  lemma SuccessfulResetCleans(b: Backend, io1: bool, io2: bool)
    requires !b.broken && b.unread == [] && ResetRun(b, io1, io2).1
    ensures Clean(ResetRun(b, io1, io2).0)
  {
    assert !io1 && !io2;
    ResetCleansExactly(b);
  }

  lemma ConditionAfter(st: State, ev: Event, k: Key)
    requires Inv(st) && Enabled(st, ev) && !Taints(ev, k) && k in Step(st, ev).conns
    requires k in st.conns ==>
      && ((forall s :: HeldBy(st, s) != Some(k)) ==> Clean(st.conns[k].backend))
      && (forall s :: HeldBy(st, s) == Some(k) ==> ConditionFor(st.sessions[s], st.conns[k].backend))
    ensures (forall s :: HeldBy(Step(st, ev), s) != Some(k)) ==> Clean(Step(st, ev).conns[k].backend)
    ensures forall s :: HeldBy(Step(st, ev), s) == Some(k) ==>
      ConditionFor(Step(st, ev).sessions[s], Step(st, ev).conns[k].backend)
  {
    forall s ensures HeldBy(Step(st, ev), s) == Some(k) ==>
      ConditionFor(Step(st, ev).sessions[s], Step(st, ev).conns[k].backend)
    {
      HeldAfter(st, ev, s);
      if HeldBy(Step(st, ev), s) == Some(k) == HeldBy(st, s) && ev.Does? && ev.sid == s {
        ConditionAfterOwnStep(st, ev, s, k);
      }
    }
    if forall s :: HeldBy(Step(st, ev), s) != Some(k) {
      ConditionWhenFree(st, ev, k);
    }
  }

  lemma ConditionWhenFree(st: State, ev: Event, k: Key)
    requires Inv(st) && Enabled(st, ev) && k in Step(st, ev).conns
    requires forall s :: HeldBy(Step(st, ev), s) != Some(k)
    requires k in st.conns ==>
      && ((forall s :: HeldBy(st, s) != Some(k)) ==> Clean(st.conns[k].backend))
      && (forall s :: HeldBy(st, s) == Some(k) ==> ConditionFor(st.sessions[s], st.conns[k].backend))
    ensures Clean(Step(st, ev).conns[k].backend)
  {
    if s :| HeldBy(st, s) == Some(k) {
      GivenBackClean(st, ev, s, k);
    } else {
      StaysFree(st, ev, k);
    }
  }

  lemma GivenBackClean(st: State, ev: Event, s: Sid, k: Key)
    requires Inv(st) && Enabled(st, ev) && k in st.conns && k in Step(st, ev).conns
    requires HeldBy(st, s) == Some(k) && HeldBy(Step(st, ev), s) != Some(k)
    requires ConditionFor(st.sessions[s], st.conns[k].backend)
    ensures Clean(Step(st, ev).conns[k].backend)
  {
    HeldAfter(st, ev, s);
    assert ev.sid == s && (ev.act.PingFail? || ev.act.Release?);
    if ev.act.PingFail? {
      PingKeepsClean(st.conns[k].backend);
    }
  }

  lemma StaysFree(st: State, ev: Event, k: Key)
    requires Inv(st) && Enabled(st, ev) && k in Step(st, ev).conns
    requires forall s :: HeldBy(st, s) != Some(k) && HeldBy(Step(st, ev), s) != Some(k)
    requires k in st.conns ==> Clean(st.conns[k].backend)
    ensures Clean(Step(st, ev).conns[k].backend)
  {
    if ev.Does? {
      HeldAfter(st, ev, ev.sid);
      assert HeldBy(st, ev.sid) != Some(k) && HeldBy(Step(st, ev), ev.sid) != Some(k);
    }
  }

  lemma ConditionAfterOwnStep(st: State, ev: Event, s: Sid, k: Key)
    requires Inv(st) && Enabled(st, ev) && !Taints(ev, k) && k in Step(st, ev).conns && k in st.conns
    requires ev.Does? && ev.sid == s && HeldBy(st, s) == HeldBy(Step(st, ev), s) == Some(k)
    requires ConditionFor(st.sessions[s], st.conns[k].backend)
    ensures ConditionFor(Step(st, ev).sessions[s], Step(st, ev).conns[k].backend)
  {
    var b := st.conns[k].backend;
    match ev.act
    case Pin(_) => PingKeepsClean(b);
    case Reset(_, _) =>
      var io1, io2 :| ResetRun(b, io1, io2) == (ev.answer, true);
      SuccessfulResetCleans(b, io1, io2);
    case _ =>
  }

  lemma {:induction false} ConnsAlwaysConditioned(run: seq<Event>)
    requires Valid(run)
    ensures ConnsConditioned(run)
    decreases |run|
  {
    if run != [] {
      var before, ev := Init(run), Last(run);
      InvAlways(before);
      ConnsAlwaysConditioned(before);
      forall k | k in After(run).conns && !Tainted(run, k)
        ensures (forall s :: HeldBy(After(run), s) != Some(k)) ==> Clean(After(run).conns[k].backend)
        ensures forall s :: HeldBy(After(run), s) == Some(k) ==>
          ConditionFor(After(run).sessions[s], After(run).conns[k].backend)
      {
        assert !Taints(run[|run| - 1], k);
        assert forall i :: 0 <= i < |before| ==> before[i] == run[i];
        ConditionAfter(After(before), ev, k);
      }
    }
  }

  /** If every earlier holder left the loop between messages and its reset succeeded, a session that
      acquires the connection, and the same session up to the moment it enters the query loop, finds
      nothing unread, no open transaction and no trace of the sessions before it, whatever they ran. */
  lemma NextSessionFindsCleanConnection(run: seq<Event>, s: Sid, k: Key)
    requires Valid(run) && HeldBy(After(run), s) == Some(k)
    requires forall i :: 0 <= i < |run| && run[i].Does? ==>
      && !(run[i].act.LeaveMid? && run[i].act.conn == k) && !(run[i].act.SendFail? && run[i].act.conn == k)
      && !(run[i].act.Reset? && run[i].act.conn == k && !run[i].act.ok)
    requires After(run).sessions[s].phase.Pinging? || After(run).sessions[s].phase.Publishing?
    ensures k in After(run).conns
    ensures var b := After(run).conns[k].backend; b.unread == [] && b.tx == Idle && b.session == 0 && !b.broken
  {
    InvAlways(run);
    ConnsAlwaysConditioned(run);
    assert ConditionFor(After(run).sessions[s], After(run).conns[k].backend);
  }
}
