// When sendCommand can return a nil error that Pi never answered.
module RpcAnswers {
  import opened Options
  import opened RpcProtocol
  import opened RpcGuarantees

  // The select's receive brings Pi's answer if and only if the channel it receives from holds something; a closed
  // empty one brings the zero envelope, and nothing in the code tells the two apart.
  lemma ReceiveAnswered(s: State, c: nat, env: Envelope)
    requires Reachable(s) && Enabled(s, Receive(c)) && At(Step(s, Receive(c)), c, Returned(Ok(env)))
    ensures AnsweredBy(Step(s, Receive(c)), c, env) <==> s.calls[c].chan.buf != []
  {
    var acts :| Run(INITIAL, acts) == Some(s);
    RunSnoc(INITIAL, acts, s, Receive(c));
    assert Leads(INITIAL, Step(s, Receive(c)));
    ReachableKeeps(s);
    assert CallOk(s, c);
    Correlation(Step(s, Receive(c)), c, env);
  }

  ghost predicate UnansweredNil(s: State, c: nat) {
    exists env :: At(s, c, Returned(Ok(env))) && !AnsweredBy(s, c, env)
  }

  ghost predicate MayGoUnanswered(s: State, c: nat) {
    exists acts, t :: Run(s, acts) == Some(t) && UnansweredNil(t, c)
  }

  // Not begun, or not yet past the locked test of closed
  predicate Early(s: State, c: nat) {
    c in s.calls ==> s.calls[c].pc.Numbered?
  }

  predicate Barred(s: State, c: nat) {
    Early(s, c) && (s.closed || s.waiter.Draining?)
  }

  lemma BarredStep(s: State, a: Action, c: nat)
    requires Inv(s) && Barred(s, c) && Enabled(s, a)
    ensures Barred(Step(s, a), c) || At(Step(s, a), c, Returned(Err(HandleClosed)))
  {
    if c in s.calls && Mover(a) != Some(Caller(c)) {
      OthersWait(s, a, c);
    }
    ClosedOrDrainingStays(s, a);
  }

  lemma ClosedOrDrainingStays(s: State, a: Action)
    requires Inv(s) && Enabled(s, a) && (s.closed || s.waiter.Draining?)
    ensures Step(s, a).closed || Step(s, a).waiter.Draining?
  {
    ExitStep(s, a);
    if TouchesEntry(a) {
      EntryStepsEmpty(s, a);
    }
  }

  lemma {:induction false} BarredRun(s: State, acts: seq<Action>, t: State, c: nat)
    requires Inv(s) && Barred(s, c) && Run(s, acts) == Some(t)
    ensures Early(t, c) || At(t, c, Returned(Err(HandleClosed)))
    decreases |acts|
  {
    if acts != [] {
      var mid := Step(s, acts[0]);
      InvStep(s, acts[0]);
      BarredStep(s, acts[0], c);
      if Barred(mid, c) {
        BarredRun(mid, acts[1..], t, c);
      } else {
        ReturnedStays(mid, acts[1..], t, c);
      }
    }
  }

  // A call that registers now is drained if the process exits before Pi answers.
  lemma RegisteredDrains(s: State, c: nat) returns (acts: seq<Action>, t: State)
    requires Inv(s) && At(s, c, Numbered) && !s.closed && (s.waiter.Running? || s.waiter.Exited?)
    ensures Run(s, acts) == Some(t) && At(t, c, Returned(Ok(ZERO)))
  {
    assert CallOk(s, c);
    var key := Key(s.calls[c].num);
    var s1 := Step(s, Register(c));
    var s2 := Step(s1, WriteOk(c));
    RunSnoc(s, [], s, Register(c));
    RunSnoc(s, [] + [Register(c)], s1, WriteOk(c));
    var first := [] + [Register(c)] + [WriteOk(c)];
    assert s2.pending == s.pending[key := c] && s2.calls[c].chan == OPEN && s2.waiter == s.waiter;
    var second, s3 := Exit(s2);
    RunAppend(s, first, s2, second, s3);
    var third, end := DrainAndReceive(s3, c, key);
    RunAppend(s, first + second, s3, third, end);
    acts, t := first + second + third, end;
  }

  lemma Exit(s: State) returns (acts: seq<Action>, t: State)
    requires s.waiter.Running? || s.waiter.Exited? || s.waiter.Draining?
    ensures Run(s, acts) == Some(t) && t == s.(waiter := Draining)
  {
    if s.waiter.Draining? {
      return [], s;
    }
    if s.waiter.Running? {
      RunSnoc(s, [], s, ProcessExit);
      acts := [] + [ProcessExit];
    } else {
      acts := [];
    }
    var mid := s.(waiter := Exited);
    RunSnoc(s, acts, mid, DrainStart);
    acts := acts + [DrainStart];
    t := Step(mid, DrainStart);
  }

  lemma DrainAndReceive(s: State, c: nat, key: string) returns (acts: seq<Action>, t: State)
    requires s.waiter.Draining? && key in s.pending && s.pending[key] == c && At(s, c, Waiting) && s.calls[c].chan == OPEN
    ensures Run(s, acts) == Some(t) && At(t, c, Returned(Ok(ZERO)))
  {
    var mid := Step(s, DrainEntry(key));
    assert mid.calls[c].chan == Chan([], true, 0, 1);
    RunSnoc(s, [], s, DrainEntry(key));
    RunSnoc(s, [] + [DrainEntry(key)], mid, Receive(c));
    acts, t := [] + [DrainEntry(key)] + [Receive(c)], Step(mid, Receive(c));
  }

  lemma CanGoUnanswered(s: State, c: nat)
    requires Reachable(s) && Early(s, c) && !s.closed && (s.waiter.Running? || s.waiter.Exited?)
    ensures MayGoUnanswered(s, c)
  {
    ReachableKeeps(s);
    var first, mid := [], s;
    if c !in s.calls {
      RunSnoc(s, [], s, Begin(c));
      InvStep(s, Begin(c));
      first, mid := [] + [Begin(c)], Step(s, Begin(c));
    }
    var rest, t := RegisteredDrains(mid, c);
    RunAppend(s, first, mid, rest, t);
    ZeroIsUnanswered(s, first + rest, t, c);
  }

  // Before a command is sent one can tell whether it may come back with a nil error and no answer: if and only if
  // the handle is not closed and its waiter has not begun to drain.
  lemma UnansweredExactly(s: State, c: nat)
    requires Reachable(s) && Early(s, c)
    ensures MayGoUnanswered(s, c) <==> !s.closed && (s.waiter.Running? || s.waiter.Exited?)
  {
    ReachableKeeps(s);
    if !s.closed && (s.waiter.Running? || s.waiter.Exited?) {
      CanGoUnanswered(s, c);
    } else {
      forall acts, t | Run(s, acts) == Some(t) ensures !UnansweredNil(t, c) {
        BarredRun(s, acts, t, c);
      }
    }
  }

  // ----- a call that has registered -----

  predicate Answering(s: State, c: nat) {
    c in s.calls && (s.calls[c].owner.Reader? || s.calls[c].owner.Answered?)
  }

  lemma AnsweringStep(s: State, a: Action, c: nat)
    requires Inv(s) && Answering(s, c) && Enabled(s, a)
    ensures Answering(Step(s, a), c)
  {
    assert CallOk(s, c);
    if TouchesEntry(a) {
      AnsweringEntry(s, a, c);
    } else {
      OwnerKept(s, a, c);
    }
  }

  // What is in the reader's hands is in no one else's.
  lemma AnsweringEntry(s: State, a: Action, c: nat)
    requires Inv(s) && Answering(s, c) && Enabled(s, a) && TouchesEntry(a)
    ensures Answering(Step(s, a), c)
  {
    forall key | key in s.pending ensures s.pending[key] != c {
      assert EntryOk(s, key);
    }
  }

  lemma OwnerKept(s: State, a: Action, c: nat)
    requires Enabled(s, a) && !TouchesEntry(a) && c in s.calls && !s.calls[c].pc.Numbered?
    ensures c in Step(s, a).calls && Step(s, a).calls[c].owner == s.calls[c].owner
  {
    if Internal(a) {
      InternalEffect(s, a);
    }
  }

  lemma {:induction false} AnsweringRun(s: State, acts: seq<Action>, t: State, c: nat)
    requires Inv(s) && Answering(s, c) && Run(s, acts) == Some(t)
    ensures Inv(t) && Answering(t, c)
    decreases |acts|
  {
    if acts != [] {
      InvStep(s, acts[0]);
      AnsweringStep(s, acts[0], c);
      AnsweringRun(Step(s, acts[0]), acts[1..], t, c);
    }
  }

  lemma AnsweringAnswers(s: State, c: nat)
    requires Inv(s) && Answering(s, c)
    ensures !UnansweredNil(s, c)
  {
    assert CallOk(s, c);
    if s.calls[c].pc.Returned? && s.calls[c].pc.result.Ok? {
      assert RoutedTo(s, c, s.calls[c].owner.line);
    }
  }

  predicate Underway(s: State, c: nat) {
    c in s.calls && (s.calls[c].pc.Registered? || s.calls[c].pc.Waiting?)
  }

  // Getting to the select
  lemma Parks(s: State, c: nat) returns (acts: seq<Action>, t: State)
    requires Underway(s, c)
    ensures Run(s, acts) == Some(t) && t == s.(calls := s.calls[c := s.calls[c].(pc := Waiting)])
  {
    if s.calls[c].pc.Registered? {
      RunSnoc(s, [], s, WriteOk(c));
      acts, t := [] + [WriteOk(c)], Step(s, WriteOk(c));
    } else {
      acts, t := [], s;
      assert s.calls[c := s.calls[c].(pc := Waiting)] == s.calls;
    }
  }

  lemma PendingDrains(s: State, c: nat) returns (acts: seq<Action>, t: State)
    requires Inv(s) && Underway(s, c) && Key(s.calls[c].num) in s.pending
    ensures Run(s, acts) == Some(t) && At(t, c, Returned(Ok(ZERO)))
  {
    var key := Key(s.calls[c].num);
    assert EntryOk(s, key) && CallOk(s, c);
    KeyOfOne(s, s.pending[key], c);
    var first, s1 := Parks(s, c);
    var second, s2 := Exit(s1);
    RunAppend(s, first, s1, second, s2);
    var third, end := DrainAndReceive(s2, c, key);
    RunAppend(s, first + second, s2, third, end);
    acts, t := first + second + third, end;
  }

  lemma DrainedReturns(s: State, c: nat) returns (acts: seq<Action>, t: State)
    requires Inv(s) && Underway(s, c) && DrainedUnanswered(s, c)
    ensures Run(s, acts) == Some(t) && At(t, c, Returned(Ok(ZERO)))
  {
    assert CallOk(s, c);
    var first, mid := Parks(s, c);
    RunSnoc(s, first, mid, Receive(c));
    acts, t := first + [Receive(c)], Step(mid, Receive(c));
  }

  lemma ZeroIsUnanswered(s: State, acts: seq<Action>, t: State, c: nat)
    requires Reachable(s) && Run(s, acts) == Some(t) && At(t, c, Returned(Ok(ZERO)))
    ensures MayGoUnanswered(s, c)
  {
    var past :| Run(INITIAL, past) == Some(s);
    RunAppend(INITIAL, past, s, acts, t);
    assert Leads(INITIAL, t);
    Correlation(t, c, ZERO);
    assert UnansweredNil(t, c);
  }

  // Once it has registered, a command may still come back with a nil error and no answer if and only if its entry
  // is pending or its channel has been closed with nothing sent.
  lemma UnderwayExactly(s: State, c: nat)
    requires Reachable(s) && Underway(s, c)
    ensures MayGoUnanswered(s, c) <==> Key(s.calls[c].num) in s.pending || DrainedUnanswered(s, c)
  {
    ReachableKeeps(s);
    if Key(s.calls[c].num) in s.pending {
      var acts, t := PendingDrains(s, c);
      ZeroIsUnanswered(s, acts, t, c);
    } else if DrainedUnanswered(s, c) {
      var acts, t := DrainedReturns(s, c);
      ZeroIsUnanswered(s, acts, t, c);
    } else {
      assert CallOk(s, c);
      assert Answering(s, c);
      forall acts, t | Run(s, acts) == Some(t) ensures !UnansweredNil(t, c) {
        AnsweringRun(s, acts, t, c);
        AnsweringAnswers(t, c);
      }
    }
  }
}
