// What a caller makes of a reply: when it is a result and when an error, and where every other error comes from.
module RpcReplies {
  import opened Options
  import opened RpcProtocol
  import opened RpcGuarantees

  // Pi refused the command: a line routed to the call says success is false.
  ghost predicate RefusedBy(s: State, c: nat, i: nat)
    requires c in s.calls
  {
    RoutedTo(s, c, i) && s.lines[i].env.success == Some(false)
  }

  function Complaint(env: Envelope): string {
    if env.error == "" then "rpc command failed" else env.error
  }

  ghost predicate VerdictOk(s: State, c: nat)
    requires c in s.calls
  {
    match s.calls[c].pc
    case Returned(Ok(env)) => env.success != Some(false)
    case Returned(Err(CommandFailed(m))) => exists i: nat :: RefusedBy(s, c, i) && m == Complaint(s.lines[i].env)
    case Returned(Err(HandleClosed)) => s.closed
    case Returned(Err(ProcessExited)) => DoneClosed(s)
    case Removing(failure) => !failure.CommandFailed? && !failure.HandleClosed? && (failure.ProcessExited? ==> DoneClosed(s))
    case _ => true
  }

  ghost predicate VerdictsOk(s: State) {
    forall c {:trigger VerdictOk(s, c)} :: c in s.calls ==> VerdictOk(s, c)
  }

  // Lines routed to a call stay routed to it.
  lemma RoutedStays(s: State, a: Action, c: nat, i: nat)
    requires Enabled(s, a) && c in s.calls && !s.calls[c].pc.Numbered? && RoutedTo(s, c, i)
    ensures c in Step(s, a).calls && RoutedTo(Step(s, a), c, i) && Step(s, a).lines[i] == s.lines[i]
  {
    NumberStays(s, a, c);
    LinesStay(s, a);
  }

  lemma NumberStays(s: State, a: Action, c: nat)
    requires Enabled(s, a) && c in s.calls && !s.calls[c].pc.Numbered?
    ensures c in Step(s, a).calls && Step(s, a).calls[c].num == s.calls[c].num && Step(s, a).calls[c].since == s.calls[c].since
  {
    if a.Remove? {
      RemoveKeepsNumbers(s, a);
    } else if TouchesEntry(a) {
      EntryStepsKeepNumbers(s, a);
    }
  }

  predicate SameNumbers(s: State, t: State) {
    && t.calls.Keys == s.calls.Keys
    && forall c :: c in s.calls ==> t.calls[c].num == s.calls[c].num && t.calls[c].since == s.calls[c].since
  }

  lemma RemoveKeepsNumbers(s: State, a: Action)
    requires Enabled(s, a) && a.Remove?
    ensures SameNumbers(s, Step(s, a))
  {
  }

  lemma EntryStepsKeepNumbers(s: State, a: Action)
    requires Enabled(s, a) && TouchesEntry(a) && !a.Remove?
    ensures SameNumbers(s, Step(s, a))
  {
  }

  lemma LinesStay(s: State, a: Action)
    requires Enabled(s, a)
    ensures s.lines <= Step(s, a).lines
  {
    if TouchesEntry(a) {
      EntryStepsKeepLines(s, a);
    }
  }

  lemma EntryStepsKeepLines(s: State, a: Action)
    requires Enabled(s, a) && TouchesEntry(a)
    ensures s.lines <= Step(s, a).lines
  {
  }

  lemma ClosedStays(s: State, a: Action)
    requires Enabled(s, a)
    ensures s.closed ==> Step(s, a).closed
    ensures DoneClosed(s) ==> DoneClosed(Step(s, a))
  {
    if TouchesEntry(a) {
      EntryStepsEmpty(s, a);
    }
  }

  lemma OthersVerdict(s: State, a: Action, c: nat)
    requires VerdictsOk(s) && Enabled(s, a) && c in s.calls && Mover(a) != Some(Caller(c))
    ensures c in Step(s, a).calls && VerdictOk(Step(s, a), c)
  {
    assert VerdictOk(s, c);
    OthersWait(s, a, c);
    ClosedStays(s, a);
    if s.calls[c].pc.Returned? && s.calls[c].pc.result.Err? && s.calls[c].pc.result.failure.CommandFailed? {
      var i: nat :| RefusedBy(s, c, i) && s.calls[c].pc.result.failure.message == Complaint(s.lines[i].env);
      RoutedStays(s, a, c, i);
      assert RefusedBy(Step(s, a), c, i);
    }
  }

  lemma ReceiveVerdict(s: State, c: nat)
    requires Inv(s) && Enabled(s, Receive(c))
    ensures VerdictOk(Step(s, Receive(c)), c)
  {
    var k := s.calls[c];
    assert CallOk(s, c);
    if k.chan.buf != [] {
      var i := k.owner.line;
      RoutedStays(s, Receive(c), c, i);
      if s.lines[i].env.success == Some(false) {
        assert RefusedBy(Step(s, Receive(c)), c, i);
      }
    }
  }

  lemma MoverVerdict(s: State, a: Action, c: nat)
    requires Inv(s) && VerdictsOk(s) && Enabled(s, a) && c in s.calls && Mover(a) == Some(Caller(c))
    ensures c in Step(s, a).calls && VerdictOk(Step(s, a), c)
  {
    assert VerdictOk(s, c);
    if a.Receive? {
      ReceiveVerdict(s, c);
    } else if a.Remove? {
      RemoveVerdict(s, c);
    }
  }

  lemma RemoveVerdict(s: State, c: nat)
    requires Enabled(s, Remove(c)) && VerdictOk(s, c)
    ensures VerdictOk(Step(s, Remove(c)), c)
  {
  }

  lemma VerdictsStep(s: State, a: Action)
    requires Inv(s) && VerdictsOk(s) && Enabled(s, a)
    ensures VerdictsOk(Step(s, a))
  {
    var t := Step(s, a);
    forall c {:trigger VerdictOk(t, c)} | c in t.calls ensures VerdictOk(t, c) {
      if c in s.calls {
        if Mover(a) == Some(Caller(c)) {
          MoverVerdict(s, a, c);
        } else {
          OthersVerdict(s, a, c);
        }
      } else {
        NewIsNumbered(s, a, c);
      }
    }
  }

  lemma NewIsNumbered(s: State, a: Action, c: nat)
    requires Enabled(s, a) && c in Step(s, a).calls && c !in s.calls
    ensures Step(s, a).calls[c].pc.Numbered?
  {
    if a.Remove? {
      RemoveKeepsNumbers(s, a);
    } else if TouchesEntry(a) {
      EntryStepsKeepNumbers(s, a);
    }
  }

  lemma {:induction false} VerdictsRun(s: State, acts: seq<Action>, t: State)
    requires Inv(s) && VerdictsOk(s) && Run(s, acts) == Some(t)
    ensures VerdictsOk(t)
    decreases |acts|
  {
    if acts != [] {
      InvStep(s, acts[0]);
      VerdictsStep(s, acts[0]);
      VerdictsRun(Step(s, acts[0]), acts[1..], t);
    }
  }

  // Over all runs: a nil error never carries a refusal. A command-failed error always comes from one, read after the
  // call registered and carrying its id, with Pi's error text or, if that is empty, the standard one. The other
  // errors tell the truth about the handle.
  lemma Verdicts(s: State, c: nat)
    requires Reachable(s) && c in s.calls && s.calls[c].pc.Returned?
    ensures var r := s.calls[c].pc.result;
      && (r.Ok? ==> r.env.success != Some(false))
      && (r.Err? && r.failure.CommandFailed? ==>
            exists i: nat :: RoutedTo(s, c, i) && s.lines[i].env.success == Some(false)
              && r.failure.message == if s.lines[i].env.error != "" then s.lines[i].env.error else "rpc command failed")
      && (r == Err(HandleClosed) ==> s.closed)
      && (r == Err(ProcessExited) ==> DoneClosed(s))
  {
    var acts :| Run(INITIAL, acts) == Some(s);
    VerdictsRun(INITIAL, acts, s);
    assert VerdictOk(s, c);
    if s.calls[c].pc.result.Err? && s.calls[c].pc.result.failure.CommandFailed? {
      var i: nat :| RefusedBy(s, c, i) && s.calls[c].pc.result.failure.message == Complaint(s.lines[i].env);
      assert RoutedTo(s, c, i);
    }
  }

  // And what a received reply becomes, exactly: the one line routed to the call decides.
  lemma ReceiveDecides(s: State, c: nat) returns (i: nat)
    requires Reachable(s) && Enabled(s, Receive(c)) && s.calls[c].chan.buf != []
    ensures RoutedTo(s, c, i)
    ensures var env := s.lines[i].env; var t := Step(s, Receive(c));
      if env.success == Some(false)
      then At(t, c, Returned(Err(CommandFailed(if env.error != "" then env.error else "rpc command failed"))))
      else At(t, c, Returned(Ok(env)))
  {
    ReachableKeeps(s);
    assert CallOk(s, c);
    i := s.calls[c].owner.line;
  }

  // ----- where the other errors come from -----

  // The call's own step that leads to a failure
  function Cause(failure: Failure, c: nat): Option<Action> {
    match failure
    case MarshalFailed => Some(MarshalFail(c))
    case WriteFailed => Some(WriteFail(c))
    case ContextDone => Some(SeeContext(c))
    case ProcessExited => Some(SeeDone(c))
    case _ => None
  }

  predicate Fails(s: State, c: nat, failure: Failure) {
    At(s, c, Removing(failure)) || At(s, c, Returned(Err(failure)))
  }

  lemma FailsStep(s: State, a: Action, c: nat, failure: Failure)
    requires Enabled(s, a) && Fails(Step(s, a), c, failure) && Cause(failure, c).Some?
    ensures Fails(s, c, failure) || a == Cause(failure, c).value
  {
    if c !in s.calls {
      NewIsNumbered(s, a, c);
    } else if Mover(a) != Some(Caller(c)) {
      OthersWait(s, a, c);
    } else {
      MoverFails(s, a, c, failure);
    }
  }

  lemma MoverFails(s: State, a: Action, c: nat, failure: Failure)
    requires Enabled(s, a) && Mover(a) == Some(Caller(c)) && Fails(Step(s, a), c, failure) && Cause(failure, c).Some?
    ensures Fails(s, c, failure) || a == Cause(failure, c).value
  {
    if Internal(a) && !a.Receive? {
      DeciderFails(s, a, failure);
    }
  }

  lemma DeciderFails(s: State, a: Action, failure: Failure)
    requires Enabled(s, a) && Internal(a) && !a.Receive? && Fails(Step(s, a), a.c, failure) && Cause(failure, a.c).Some?
    ensures a == Cause(failure, a.c).value
  {
  }

  // A call that failed to encode or write, was cancelled, or saw the process exit, did just that.
  lemma {:induction false} FailureHasCause(s: State, acts: seq<Action>, t: State, c: nat, failure: Failure)
    requires Run(s, acts) == Some(t) && Fails(t, c, failure) && Cause(failure, c).Some?
    ensures Fails(s, c, failure) || Cause(failure, c).value in acts
    decreases |acts|
  {
    if acts != [] {
      FailureHasCause(Step(s, acts[0]), acts[1..], t, c, failure);
      if Fails(Step(s, acts[0]), c, failure) {
        FailsStep(s, acts[0], c, failure);
      }
    }
  }

  // ----- when an answer was read -----

  lemma {:induction false} NumberKept(s: State, acts: seq<Action>, t: State, c: nat)
    requires Run(s, acts) == Some(t) && c in s.calls && !s.calls[c].pc.Numbered?
    ensures c in t.calls && t.calls[c].num == s.calls[c].num && t.calls[c].since == s.calls[c].since
    decreases |acts|
  {
    if acts != [] {
      NumberStays(s, acts[0], c);
      NumberedOnce(s, acts[0], c);
      NumberKept(Step(s, acts[0]), acts[1..], t, c);
    }
  }

  lemma NumberedOnce(s: State, a: Action, c: nat)
    requires Enabled(s, a) && c in s.calls && !s.calls[c].pc.Numbered?
    ensures c in Step(s, a).calls && !Step(s, a).calls[c].pc.Numbered?
  {
    if Mover(a) != Some(Caller(c)) {
      OthersWait(s, a, c);
    }
  }

  // No line read before a command registered is ever routed to it, and every line that is carries the id it drew.
  lemma AnsweredAfterRegistering(s: State, c: nat, acts: seq<Action>, t: State, i: nat)
    requires Enabled(s, Register(c)) && !s.closed && Run(Step(s, Register(c)), acts) == Some(t)
    ensures c in t.calls && (RoutedTo(t, c, i) ==> i >= |s.lines| && t.lines[i].env.id == Key(s.calls[c].num))
  {
    NumberKept(Step(s, Register(c)), acts, t, c);
  }
}
