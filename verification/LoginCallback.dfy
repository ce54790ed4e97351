/** startCallbackServer (internal/cli/login.go): any number of callback requests, one receiver that
    selects once, and two unbuffered channels. A handler that rejects its request reports the error and,
    except for an error parameter, goes on with the next check and at last offers its code. */
module LoginCallback {
  import opened Options

  type Hid = nat      // a callback request

  datatype Request = Request(code: string, state: string, error: string)

  /** What a handler may reject a request for, in the order of its checks. */
  datatype Reason = ErrorParameter | MissingCode | MissingState | StateMismatch

  predicate Rejects(why: Reason, request: Request, expected: string) {
    match why
    case ErrorParameter => request.error != ""
    case MissingCode => request.code == ""
    case MissingState => request.state == ""
    case StateMismatch => request.state != expected
  }

  /** A callback section 4.1.2 of RFC 6749 allows to use. */
  predicate Acceptable(request: Request, expected: string) {
    && request.error == "" && request.code != ""
    && request.state != "" && request.state == expected
  }

  datatype Pc = Checking(why: Reason) | Reporting(why: Reason) | Offering | Finished

  datatype Handler = Handler(request: Request, pc: Pc)

  datatype Outcome =
    | Code(code: string)
    | Reported(handler: Hid, why: Reason)
    | ServerFailed
    | TimedOut
    | Cancelled

  /** The receiver is still on its way to the select, waits in it, or has left it for good. */
  datatype Receiver = Starting | Waiting | Done(outcome: Outcome)

  /** The goroutine that runs the HTTP server. */
  datatype Listener = Listening | ListenFailed | ListenerGone

  datatype State = State(receiver: Receiver, handlers: map<Hid, Handler>, listener: Listener)

  const INIT := State(Starting, map[], Listening)

  datatype Event =
    | Select
    | Arrive(h: Hid, request: Request)
    | Check(h: Hid)
    | Report(h: Hid)     // errChan <- err, which needs the receiver in its select
    | Offer(h: Hid)      // select { case codeChan <- code: default: }
    | Fail
    | ReportFailure
    | Timeout
    | Cancel

  predicate Enabled(st: State, ev: Event) {
    match ev
    case Select => st.receiver.Starting?
    case Arrive(h, _) => h !in st.handlers
    case Check(h) => h in st.handlers && st.handlers[h].pc.Checking?
    case Report(h) => h in st.handlers && st.handlers[h].pc.Reporting? && st.receiver.Waiting?
    case Offer(h) => h in st.handlers && st.handlers[h].pc.Offering?
    case Fail => st.listener.Listening?
    case ReportFailure => st.listener.ListenFailed? && st.receiver.Waiting?
    case Timeout => st.receiver.Waiting?
    case Cancel => st.receiver.Waiting?
  }

  /** Where a handler goes after a check it has done with. */
  function Past(why: Reason): Pc {
    match why
    case ErrorParameter => Checking(MissingCode)
    case MissingCode => Checking(MissingState)
    case MissingState => Checking(StateMismatch)
    case StateMismatch => Offering
  }

  function NextPc(st: State, ev: Event, expected: string): Pc
    requires Enabled(st, ev) && (ev.Check? || ev.Report? || ev.Offer?)
  {
    var hr := st.handlers[ev.h];
    match ev
    case Check(_) => if Rejects(hr.pc.why, hr.request, expected) then Reporting(hr.pc.why) else Past(hr.pc.why)
    case Report(_) => if hr.pc.why.ErrorParameter? then Finished else Past(hr.pc.why)
    case Offer(_) => Finished
  }

  /** What the receiver receives by an event, if anything. */
  function Received(st: State, ev: Event): Option<Outcome>
    requires Enabled(st, ev)
  {
    match ev
    case Report(h) => Some(Reported(h, st.handlers[h].pc.why))
    case Offer(h) => if st.receiver.Waiting? then Some(Code(st.handlers[h].request.code)) else None
    case ReportFailure => Some(ServerFailed)
    case Timeout => Some(TimedOut)
    case Cancel => Some(Cancelled)
    case _ => None
  }

  function Step(st: State, ev: Event, expected: string): State
    requires Enabled(st, ev)
  {
    var received := Received(st, ev);
    State(
      if received.Some? then Done(received.value) else if ev.Select? then Waiting else st.receiver,
      if ev.Arrive? then st.handlers[ev.h := Handler(ev.request, Checking(ErrorParameter))]
      else if ev.Check? || ev.Report? || ev.Offer? then
        st.handlers[ev.h := st.handlers[ev.h].(pc := NextPc(st, ev, expected))]
      else st.handlers,
      if ev.Fail? then ListenFailed else if ev.ReportFailure? then ListenerGone else st.listener)
  }

  /** `expected` is the session's state parameter, set before the server starts. */
  ghost function Reach(expected: string, run: seq<Event>): Option<State>
    decreases |run|
  {
    if run == [] then Some(INIT)
    else
      var before := Reach(expected, run[..|run| - 1]);
      if before.Some? && Enabled(before.value, run[|run| - 1]) then Some(Step(before.value, run[|run| - 1], expected))
        else None
  }

  ghost predicate Valid(expected: string, run: seq<Event>) {
    Reach(expected, run).Some?
  }

  ghost function After(expected: string, run: seq<Event>): State
    requires Valid(expected, run)
  {
    Reach(expected, run).value
  }

  predicate Before(a: Reason, b: Reason) {
    match b
    case ErrorParameter => false
    case MissingCode => a.ErrorParameter?
    case MissingState => a.ErrorParameter? || a.MissingCode?
    case StateMismatch => !a.StateMismatch?
  }

  /** A handler has gone past a check. */
  predicate HasPassed(pc: Pc, why: Reason) {
    match pc
    case Checking(now) => Before(why, now)
    case Reporting(now) => Before(why, now)
    case Offering => true
    case Finished => true
  }

  /** A handler got past a check that rejects its request exactly if the receiver left its select with
      that very report; an error parameter hides the later checks. */
  predicate ReportedWhatItPassed(st: State, h: Hid, expected: string)
    requires h in st.handlers
  {
    var hr := st.handlers[h];
    && (hr.pc.Reporting? ==> Rejects(hr.pc.why, hr.request, expected))
    && (hr.request.error != "" ==> hr.pc in {Checking(ErrorParameter), Reporting(ErrorParameter), Finished})
    && forall why: Reason :: why.ErrorParameter? || hr.request.error == "" ==>
         (HasPassed(hr.pc, why) && Rejects(why, hr.request, expected) <==> st.receiver == Done(Reported(h, why)))
  }

  ghost predicate CodeIsGood(st: State, expected: string) {
    st.receiver.Done? && st.receiver.outcome.Code? ==>
      exists h :: h in st.handlers && st.handlers[h].pc.Finished?
                  && Acceptable(st.handlers[h].request, expected)
                  && st.handlers[h].request.code == st.receiver.outcome.code
  }

  ghost predicate Inv(st: State, expected: string) {
    && (forall h :: h in st.handlers ==> ReportedWhatItPassed(st, h, expected))
    && (st.receiver.Done? && st.receiver.outcome.Reported? ==>
          && st.receiver.outcome.handler in st.handlers
          && (st.receiver.outcome.why.ErrorParameter? || st.handlers[st.receiver.outcome.handler].request.error == ""))
    && CodeIsGood(st, expected)
  }

  /** While nothing has been received, a handler that offers its code has a good one. */
  lemma OffersAreGood(st: State, h: Hid, expected: string)
    requires Inv(st, expected) && h in st.handlers && st.handlers[h].pc.Offering? && !st.receiver.Done?
    ensures Acceptable(st.handlers[h].request, expected)
  {
    var hr := st.handlers[h];
    assert ReportedWhatItPassed(st, h, expected);
    assert forall why: Reason :: HasPassed(hr.pc, why) ==> !Rejects(why, hr.request, expected);
    assert !Rejects(MissingCode, hr.request, expected) && !Rejects(MissingState, hr.request, expected);
    assert !Rejects(StateMismatch, hr.request, expected);
  }

  lemma KeepsReported(st: State, ev: Event, expected: string, h: Hid)
    requires Inv(st, expected) && Enabled(st, ev) && h in Step(st, ev, expected).handlers
    ensures ReportedWhatItPassed(Step(st, ev, expected), h, expected)
  {
    if h in st.handlers {
      assert ReportedWhatItPassed(st, h, expected);
    }
  }

  lemma KeepsCodeGood(st: State, ev: Event, expected: string)
    requires Inv(st, expected) && Enabled(st, ev)
    ensures CodeIsGood(Step(st, ev, expected), expected)
  {
    var next := Step(st, ev, expected);
    if ev.Offer? && st.receiver.Waiting? {
      OffersAreGood(st, ev.h, expected);
      assert next.handlers[ev.h].pc.Finished?;
    } else if next.receiver.Done? && next.receiver.outcome.Code? {
      var h :| h in st.handlers && st.handlers[h].pc.Finished?
               && Acceptable(st.handlers[h].request, expected)
               && st.handlers[h].request.code == st.receiver.outcome.code;
      assert next.handlers[h] == st.handlers[h];
    }
  }

  lemma {:induction false} InvAlways(expected: string, run: seq<Event>)
    requires Valid(expected, run)
    ensures Inv(After(expected, run), expected)
    decreases |run|
  {
    if run != [] {
      var st, ev := After(expected, run[..|run| - 1]), run[|run| - 1];
      InvAlways(expected, run[..|run| - 1]);
      forall h | h in Step(st, ev, expected).handlers
        ensures ReportedWhatItPassed(Step(st, ev, expected), h, expected) {
        KeepsReported(st, ev, expected, h);
      }
      KeepsCodeGood(st, ev, expected);
    }
  }

  /** The code returned is one that some callback carried, with no error and the session's state. */
  lemma {:induction false} CodeComesFromAcceptableCallback(expected: string, run: seq<Event>, code: string)
    requires Valid(expected, run) && After(expected, run).receiver == Done(Code(code))
    ensures exists i ::
      0 <= i < |run| && run[i].Arrive? && run[i].request.code == code && Acceptable(run[i].request, expected)
  {
    InvAlways(expected, run);
    var st := After(expected, run);
    var h :| h in st.handlers && Acceptable(st.handlers[h].request, expected) && st.handlers[h].request.code == code;
    HandlersHaveRequests(expected, run, h);
  }

  lemma {:induction false} HandlersHaveRequests(expected: string, run: seq<Event>, h: Hid)
    requires Valid(expected, run) && h in After(expected, run).handlers
    ensures exists i :: 0 <= i < |run| && run[i] == Arrive(h, After(expected, run).handlers[h].request)
    decreases |run|
  {
    var before := run[..|run| - 1];
    if h in After(expected, before).handlers {
      HandlersHaveRequests(expected, before, h);
      var i :| 0 <= i < |before| && before[i] == Arrive(h, After(expected, before).handlers[h].request);
      assert run[i] == before[i];
    } else {
      assert run[|run| - 1] == Arrive(h, After(expected, run).handlers[h].request);
    }
  }

  /** How many receives, of any channel, complete over a run. */
  ghost function Receives(expected: string, run: seq<Event>): nat
    requires Valid(expected, run)
    decreases |run|
  {
    if run == [] then 0
    else
      var before := run[..|run| - 1];
      Receives(expected, before) + if Received(After(expected, before), run[|run| - 1]).Some? then 1 else 0
  }

  /** At most one receive ever completes: none before the receiver is done, one after. */
  lemma {:induction false} AtMostOneReceive(expected: string, run: seq<Event>)
    requires Valid(expected, run)
    ensures Receives(expected, run) == if After(expected, run).receiver.Done? then 1 else 0
    decreases |run|
  {
    if run != [] {
      AtMostOneReceive(expected, run[..|run| - 1]);
    }
  }

  /** A handler whose request is not acceptable gets to its offer, or to its end, only as the one whose
      report was the one receive: so there is at most one such handler, it had one thing to report, and no
      code is the outcome. */
  lemma RejectingHandlersComeTooLate(expected: string, run: seq<Event>, h: Hid)
    requires Valid(expected, run) && h in After(expected, run).handlers
    requires After(expected, run).handlers[h].pc.Offering? || After(expected, run).handlers[h].pc.Finished?
    requires !Acceptable(After(expected, run).handlers[h].request, expected)
    ensures exists why: Reason ::
              && After(expected, run).receiver == Done(Reported(h, why))
              && Rejects(why, After(expected, run).handlers[h].request, expected)
              && forall other: Reason :: Rejects(other, After(expected, run).handlers[h].request, expected) ==>
                   other == why || why == ErrorParameter
  {
    InvAlways(expected, run);
    var st := After(expected, run);
    var hr := st.handlers[h];
    assert ReportedWhatItPassed(st, h, expected);
    var why :=
      if hr.request.error != "" then ErrorParameter
      else if hr.request.code == "" then MissingCode
      else if hr.request.state == "" then MissingState
      else StateMismatch;
    assert Rejects(why, hr.request, expected) && HasPassed(hr.pc, why);
    forall other: Reason | Rejects(other, hr.request, expected) ensures other == why || why == ErrorParameter {
      assert HasPassed(hr.pc, other);
    }
  }

  /** The outcome stands whatever happens later. */
  lemma {:induction false} OutcomeStands(expected: string, run: seq<Event>, n: nat)
    requires Valid(expected, run) && n <= |run|
    ensures Valid(expected, run[..n])
    ensures After(expected, run[..n]).receiver.Done? ==>
      After(expected, run).receiver == After(expected, run[..n]).receiver
    decreases |run|
  {
    if n == |run| {
      assert run[..n] == run;
    } else {
      assert run[..|run| - 1][..n] == run[..n];
      OutcomeStands(expected, run[..|run| - 1], n);
    }
  }

  /** A handler that has something to report when the receiver is done waits for ever. */
  lemma {:induction false} LateReportsNeverReturn(expected: string, run: seq<Event>, n: nat, h: Hid)
    requires Valid(expected, run) && n <= |run| && Valid(expected, run[..n])
    requires After(expected, run[..n]).receiver.Done?
    requires h in After(expected, run[..n]).handlers && After(expected, run[..n]).handlers[h].pc.Reporting?
    ensures h in After(expected, run).handlers
      && After(expected, run).handlers[h] == After(expected, run[..n]).handlers[h]
    decreases |run|
  {
    if n == |run| {
      assert run[..n] == run;
    } else {
      assert run[..|run| - 1][..n] == run[..n];
      LateReportsNeverReturn(expected, run[..|run| - 1], n, h);
      OutcomeStands(expected, run[..|run| - 1], n);
    }
  }

  /** An offered code becomes the outcome exactly if the receiver waits: a good one that comes before the
      receiver reaches its select, or after another receive, is lost. */
  lemma OfferCountsIfAwaited(expected: string, run: seq<Event>, h: Hid)
    requires Valid(expected, run + [Offer(h)])
    ensures Valid(expected, run) && h in After(expected, run).handlers
    ensures var st, next := After(expected, run), After(expected, run + [Offer(h)]);
            if st.receiver.Waiting? then
              next.receiver == Done(Code(st.handlers[h].request.code)) && Acceptable(st.handlers[h].request, expected)
            else next.receiver == st.receiver
  {
    assert (run + [Offer(h)])[..|run|] == run;
    InvAlways(expected, run);
    if After(expected, run).receiver.Waiting? {
      OffersAreGood(After(expected, run), h, expected);
    }
  }

  // ----- A callback by itself -----

  lemma Extend(expected: string, run: seq<Event>, ev: Event) returns (longer: seq<Event>)
    requires Valid(expected, run) && Enabled(After(expected, run), ev)
    ensures longer == run + [ev] && Valid(expected, longer)
    ensures After(expected, longer) == Step(After(expected, run), ev, expected)
  {
    longer := run + [ev];
    assert longer[..|longer| - 1] == run;
  }

  /** While the receiver waits, a callback with a code, no error and the session's state is all it takes: its
      handler can make its four checks and offer the code, and that is the outcome. */
  lemma AcceptableCallbackIsReceived(expected: string, run: seq<Event>, h: Hid, request: Request)
    returns (longer: seq<Event>)
    requires Valid(expected, run) && After(expected, run).receiver.Waiting? && h !in After(expected, run).handlers
    requires request.error == "" && request.code != "" && request.state != "" && request.state == expected
    ensures longer == run + [Arrive(h, request), Check(h), Check(h), Check(h), Check(h), Offer(h)]
    ensures Valid(expected, longer) && After(expected, longer).receiver == Done(Code(request.code))
  {
    longer := Extend(expected, run, Arrive(h, request));
    longer := Extend(expected, longer, Check(h));
    longer := Extend(expected, longer, Check(h));
    longer := Extend(expected, longer, Check(h));
    longer := Extend(expected, longer, Check(h));
    longer := Extend(expected, longer, Offer(h));
  }

  /** The first thing wrong with a callback. */
  function FirstWrong(request: Request, expected: string): Option<Reason> {
    if request.error != "" then Some(ErrorParameter)
    else if request.code == "" then Some(MissingCode)
    else if request.state == "" then Some(MissingState)
    else if request.state != expected then Some(StateMismatch)
    else None
  }

  /** And any other callback can make it fail, with the first thing wrong with it. */
  lemma OtherCallbackIsReported(expected: string, run: seq<Event>, h: Hid, request: Request)
    returns (longer: seq<Event>)
    requires Valid(expected, run) && After(expected, run).receiver.Waiting? && h !in After(expected, run).handlers
    requires FirstWrong(request, expected).Some?
    ensures Valid(expected, longer) && run <= longer
    ensures After(expected, longer).receiver == Done(Reported(h, FirstWrong(request, expected).value))
  {
    var why := FirstWrong(request, expected).value;
    longer := Extend(expected, run, Arrive(h, request));
    longer := Extend(expected, longer, Check(h));
    if !why.ErrorParameter? {
      longer := Extend(expected, longer, Check(h));
      if !why.MissingCode? {
        longer := Extend(expected, longer, Check(h));
        if !why.MissingState? {
          longer := Extend(expected, longer, Check(h));
        }
      }
    }
    longer := Extend(expected, longer, Report(h));
  }

  /** The receiver can reach its select, and leave it for want of a callback or of a server. */
  lemma OtherOutcomes(expected: string, run: seq<Event>)
    requires Valid(expected, run)
    ensures var st := After(expected, run);
      && (st.receiver.Starting? ==> Enabled(st, Select) && Step(st, Select, expected).receiver == Waiting)
      && (st.receiver.Waiting? ==>
           && Enabled(st, Timeout) && Step(st, Timeout, expected).receiver == Done(TimedOut)
           && Enabled(st, Cancel) && Step(st, Cancel, expected).receiver == Done(Cancelled))
      && (st.receiver.Waiting? && st.listener.ListenFailed? ==>
           Enabled(st, ReportFailure) && Step(st, ReportFailure, expected).receiver == Done(ServerFailed))
      && (st.listener.Listening? ==> Enabled(st, Fail) && Step(st, Fail, expected).listener == ListenFailed)
  {
  }
}
