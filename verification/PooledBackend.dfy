/** A pooled backend connection as the proxy sees it, and the reset it is given before it goes back
    to the pool (fullResetBeforeRelease in internal/proxy/connection.go). The server's side is the
    simple query protocol: every command is answered by replies that end in one ReadyForQuery. */
module PooledBackend {
  import opened CancelKeys

  /** The transaction status a ReadyForQuery reports: 'I', 'T' or 'E'. */
  datatype Tx = Idle | InBlock | Failed

  datatype Reply = Ready(tx: Tx) | Error | Other

  datatype Command = Ping | Rollback | DiscardAll

  /** `session` stands for everything DISCARD ALL resets (settings, prepared statements, temporary
      tables, locks) and is 0 on a new connection; `saved` is what a ROLLBACK returns it to. */
  datatype Backend = Backend(unread: seq<Reply>, tx: Tx, session: nat, saved: nat, broken: bool)

  const NEW := Backend([], Idle, 0, 0, false)

  /** Nothing left to read, no open transaction, no trace of an earlier session. */
  predicate Clean(b: Backend) {
    b.unread == [] && b.tx.Idle? && b.session == 0 && !b.broken
  }

  /** The server's execution of one command, its replies queued behind those not yet read. */
  function Serve(b: Backend, cmd: Command): Backend {
    match cmd
    case Ping => b.(unread := b.unread + [Other, Ready(b.tx)])
    case Rollback =>
      b.(unread := b.unread + [Other, Ready(Idle)], tx := Idle, session := if b.tx.Idle? then b.session else b.saved)
    case DiscardAll =>
      if b.tx.Idle? then b.(unread := b.unread + [Other, Ready(Idle)], session := 0)
      else b.(unread := b.unread + [Error, Ready(Failed)], tx := Failed)
  }

  function ReadyReplies(q: seq<Reply>): nat {
    if q == [] then 0 else (if q[0].Ready? then 1 else 0) + ReadyReplies(q[1..])
  }

  /** Reading replies up to and including the first ReadyForQuery: what is left, and whether no
      error was among those read. */
  function ReadToReady(q: seq<Reply>): (seq<Reply>, bool) {
    if q == [] then ([], true)
    else if q[0].Ready? then (q[1..], true)
    else var (rest, ok) := ReadToReady(q[1..]); (rest, ok && !q[0].Error?)
  }

  /** Exec on a pooled connection; with `io` the connection fails under it and is closed. */
  function Exec(b: Backend, cmd: Command, io: bool): (Backend, bool) {
    if b.broken || io then (b.(broken := true), false)
    else
      var served := Serve(b, cmd);
      var (rest, ok) := ReadToReady(served.unread);
      (served.(unread := rest), ok)
  }

  function ResetRun(b: Backend, io1: bool, io2: bool): (Backend, bool) {
    var (rolledBack, ok) := Exec(b, Rollback, io1);
    if ok then Exec(rolledBack, DiscardAll, io2) else (rolledBack, false)
  }

  /** The same two commands in the other order, which the code does not use. */
  function SwappedReset(b: Backend): (Backend, bool) {
    var (discarded, ok) := Exec(b, DiscardAll, false);
    if ok then Exec(discarded, Rollback, false) else (discarded, false)
  }

  lemma {:induction false} ReadyRepliesAppend(q: seq<Reply>, r: seq<Reply>)
    ensures ReadyReplies(q + r) == ReadyReplies(q) + ReadyReplies(r)
  {
    if q == [] {
      assert q + r == r;
    } else {
      assert (q + r)[1..] == q[1..] + r;
      ReadyRepliesAppend(q[1..], r);
    }
  }

  /** Reading to a ReadyForQuery takes exactly one, and all of the queue when only the last reply is one. */
  lemma {:induction false} ReadToReadyTakesOne(q: seq<Reply>)
    requires q != [] && q[|q| - 1].Ready?
    ensures ReadyReplies(ReadToReady(q).0) == ReadyReplies(q) - 1
    ensures ReadToReady(q).0 == [] <==> ReadyReplies(q) == 1
    ensures ReadyReplies(q) == 1 ==> (ReadToReady(q).1 <==> Error !in q)
    ensures ReadToReady(q).0 != [] ==> ReadToReady(q).0[|ReadToReady(q).0| - 1].Ready?
  {
    if !q[0].Ready? {
      ReadToReadyTakesOne(q[1..]);
      assert q == [q[0]] + q[1..];
    } else if |q| > 1 {
      assert q[1..][|q| - 2].Ready?;
      LastReady(q[1..]);
    }
    if ReadyReplies(q) == 1 && q[0].Ready? {
      assert |q| == 1;
    }
  }

  lemma {:induction false} LastReady(q: seq<Reply>)
    requires q != [] && q[|q| - 1].Ready?
    ensures ReadyReplies(q) > 0
  {
    ReadyRepliesAppend(q[..|q| - 1], [q[|q| - 1]]);
    assert q == q[..|q| - 1] + [q[|q| - 1]];
  }

  /** A command answered in full leaves exactly as many ReadyForQuerys behind as it found: replies
      that were unread before it stay in the way of whoever reads next. */
  lemma ExecKeepsReadyReplies(b: Backend, cmd: Command)
    requires !b.broken
    ensures ReadyReplies(Exec(b, cmd, false).0.unread) == ReadyReplies(b.unread)
    ensures ReadyReplies(b.unread) == 0 ==>
      && Exec(b, cmd, false).0.unread == []
      && (Exec(b, cmd, false).1 <==> Error !in b.unread && !(cmd.DiscardAll? && !b.tx.Idle?))
  {
    var own := Serve(b, cmd).unread[|b.unread|..];
    assert Serve(b, cmd).unread == b.unread + own;
    ReadyRepliesAppend(b.unread, own);
    assert own == [own[0]] + [own[1]] && !own[0].Ready? && own[1].Ready?;
    ReadyRepliesAppend([own[0]], [own[1]]);
    ReadToReadyTakesOne(Serve(b, cmd).unread);
  }

  /** A reset succeeds and leaves a clean connection exactly when no reply still to be read was a
      ReadyForQuery or an error, whatever the transaction status and the session state were. */
  lemma ResetCleansExactly(b: Backend)
    requires !b.broken
    ensures ResetRun(b, false, false).1 && Clean(ResetRun(b, false, false).0)
       <==> ReadyReplies(b.unread) == 0 && Error !in b.unread
    ensures ResetRun(b, false, false).1 ==> (Clean(ResetRun(b, false, false).0) <==> ReadyReplies(b.unread) == 0)
  {
    ExecKeepsReadyReplies(b, Rollback);
    ExecKeepsReadyReplies(Exec(b, Rollback, false).0, DiscardAll);
  }

  /** With replies pending, a reset can report success and still hand back a connection whose next
      reader gets an earlier session's replies. */
  lemma ResetMissesUnreadReplies(b: Backend)
    requires b == NEW.(unread := [Ready(Idle)])
    ensures ResetRun(b, false, false).1 && !Clean(ResetRun(b, false, false).0)
  {
    var served := Serve(b, Rollback);
    assert served.unread == [Ready(Idle), Other, Ready(Idle)];
    var rolledBack := Exec(b, Rollback, false).0;
    assert rolledBack.unread == [Other, Ready(Idle)];
    assert Serve(rolledBack, DiscardAll).unread == [Other, Ready(Idle), Other, Ready(Idle)];
    assert ReadToReady([Other, Ready(Idle), Other, Ready(Idle)][1..]).0 == [Other, Ready(Idle)];
  }

  /** ROLLBACK has to come first: the other order cleans exactly the connections with no open transaction. */
  lemma SwappedResetCleansExactly(b: Backend)
    requires b.unread == [] && !b.broken
    ensures SwappedReset(b).1 && Clean(SwappedReset(b).0) <==> b.tx.Idle?
  {
    ExecKeepsReadyReplies(b, DiscardAll);
    ExecKeepsReadyReplies(Exec(b, DiscardAll, false).0, Rollback);
  }

  /** Neither command is enough: a ROLLBACK leaves what a session changed outside its transaction, and DISCARD
      ALL is refused inside one. */
  lemma NeitherCommandIsEnough(b: Backend)
    requires b.unread == [] && !b.broken
    ensures Clean(Exec(b, Rollback, false).0) <==> if b.tx == Idle then b.session == 0 else b.saved == 0
    ensures Exec(b, DiscardAll, false).1 <==> b.tx == Idle
    ensures Clean(Exec(b, DiscardAll, false).0) <==> b.tx == Idle
  {
    ExecKeepsReadyReplies(b, Rollback);
    ExecKeepsReadyReplies(b, DiscardAll);
  }

  /** A connection taken from a pool. */
  class PooledConn {
    const key: Key
    var backend: Backend

    constructor (key: Key, backend: Backend)
      ensures this.key == key && this.backend == backend
    {
      this.key := key;
      this.backend := backend;
    }

    /** The library's Exec: sends the command and reads to one ReadyForQuery. */
    method ExecCommand(cmd: Command, io: bool) returns (ok: bool)
      modifies this
      ensures (backend, ok) == Exec(old(backend), cmd, io)
    {
      if backend.broken || io {
        backend := backend.(broken := true);
        return false;
      }
      backend := Serve(backend, cmd);
      ok := true;
      ghost var all := backend.unread;
      while backend.unread != []
        invariant backend == Serve(old(backend), cmd).(unread := backend.unread)
        invariant ReadToReady(all) == (ReadToReady(backend.unread).0, ok && ReadToReady(backend.unread).1)
        decreases |backend.unread|
      {
        var reply := backend.unread[0];
        backend := backend.(unread := backend.unread[1..]);
        if reply.Ready? {
          return;
        }
        if reply.Error? {
          ok := false;
        }
      }
    }

    method FullResetBeforeRelease(io1: bool, io2: bool) returns (ok: bool)
      modifies this
      ensures (backend, ok) == ResetRun(old(backend), io1, io2)
      ensures !old(backend).broken && old(backend).unread == [] && !io1 && !io2 ==>
        ok && backend.unread == [] && backend.tx == Idle && backend.session == 0 && !backend.broken
    {
      if !old(backend).broken {
        ResetCleansExactly(old(backend));
      }
      ok := ExecCommand(Rollback, io1);
      if !ok {
        return false;
      }
      ok := ExecCommand(DiscardAll, io2);
    }
  }
}
