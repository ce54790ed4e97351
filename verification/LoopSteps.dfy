/** A stretch of the query loop as steps of the session automaton. */
module LoopSteps {
  import opened Options
  import opened CancelKeys
  import opened Wire
  import opened Relay
  import A = SessionAutomaton

  /** Whether nothing is outstanding after these messages went to the client. */
  predicate BetweenMessages(relayed: seq<BackendMsg>) {
    relayed == [] || relayed[|relayed| - 1].ReadyForQuery?
  }

  /** The steps behind what the client was sent: a message is forwarded before its first reply. */
  function Steps(relayed: seq<BackendMsg>): seq<A.Act> {
    if relayed == [] then []
    else
      var init := relayed[..|relayed| - 1];
      Steps(init) + (if BetweenMessages(init) then [A.Forward] else []) +
      [if relayed[|relayed| - 1].ReadyForQuery? then A.RelayReady else A.RelayOther]
  }

  /** The steps after those: the message that is still unanswered, and the exit. */
  function Leaving(s: Stretch, o: Outcome, conn: Key): seq<A.Act> {
    (if InsideRelay(o) && BetweenMessages(s.relayed) then [A.Forward] else [])
    + match o
      case ClientGone => [A.Leave]
      case Terminated => [A.Leave]
      case BackendSendFailed => [A.SendFail(conn)]
      case BackendGone => [A.LeaveMid(conn)]
      case ClientSendFailed => [A.LeaveMid(conn)]
      case _ => []
  }

  function AllSteps(s: Stretch, o: Outcome, conn: Key): seq<A.Act> {
    Steps(s.relayed) + Leaving(s, o, conn)
  }

  function After(se: A.Session, s: Stretch, o: Outcome): A.Session {
    se.(phase := if o.AtHead? || o.WaitsForClient? then A.Looping
                 else if o.WaitsForBackend? then A.Relaying else A.Closing)
  }

  lemma {:induction false} StepsFollow(se: A.Session, relayed: seq<BackendMsg>)
    requires se.phase.Looping?
    ensures A.Follows(se, Steps(relayed), se.(phase := if BetweenMessages(relayed) then A.Looping else A.Relaying))
  {
    if relayed != [] {
      var init := relayed[..|relayed| - 1];
      StepsFollow(se, init);
      var mid := se.(phase := if BetweenMessages(init) then A.Looping else A.Relaying);
      var more := (if BetweenMessages(init) then [A.Forward] else [])
        + [if relayed[|relayed| - 1].ReadyForQuery? then A.RelayReady else A.RelayOther];
      var last := se.(phase := if BetweenMessages(relayed) then A.Looping else A.Relaying);
      assert A.Follows(mid, more, last) by {
        if BetweenMessages(init) {
          assert more[1..][1..] == [];
        } else {
          assert more[1..] == [];
        }
      }
      A.FollowsAppend(se, Steps(init), mid, more, last);
      assert Steps(relayed) == Steps(init) + more;
    }
  }

  lemma LeavingFollows(mid: A.Session, more: seq<A.Act>, last: A.Session)
    requires |more| <= 2
    requires more == [] ==> mid == last
    requires |more| == 1 ==> A.Enabled(mid, more[0]) && A.Next(mid, more[0]) == last
    requires |more| == 2 ==>
      && A.Enabled(mid, more[0]) && A.Enabled(A.Next(mid, more[0]), more[1])
      && A.Next(A.Next(mid, more[0]), more[1]) == last
    ensures A.Follows(mid, more, last)
  {
    if |more| == 2 {
      assert more[1..] == [more[1]] && more[1..][1..] == [];
    } else if |more| == 1 {
      assert more[1..] == [];
    }
  }

  /** Lockstep is what makes a stretch of the loop a run of the automaton: each message forwarded only
      when the one before was answered. */
  lemma StretchFollows(se: A.Session, s: Stretch, o: Outcome, conn: Key)
    requires se.phase.Looping? && se.poolConn == Some(conn) && Lockstep(s, o) && !o.AtHead?
    ensures A.Follows(se, AllSteps(s, o, conn), After(se, s, o))
  {
    StepsFollow(se, s.relayed);
    var mid := se.(phase := if BetweenMessages(s.relayed) then A.Looping else A.Relaying);
    LeavingFollows(mid, Leaving(s, o, conn), After(se, s, o));
    A.FollowsAppend(se, Steps(s.relayed), mid, Leaving(s, o, conn), After(se, s, o));
  }
}
