// What each line of Pi's output leads to, with the decoders the reader really uses: which line answers a command, which
// becomes an event, and that an answer reaches its caller.
module PiStream {
  import opened Options
  import opened Text
  import opened Gateway
  import opened RpcProtocol
  import opened RpcGuarantees
  import opened RpcAnswers
  import opened LineDemux
  import opened ReaderRun
  import opened RpcFeed
  import Fanout
  import EventFeed

  function Fates(d: Decoders): string -> Fate {
    raw => FateOf(d, raw)
  }

  // The line without one final carriage return
  predicate IsBody(raw: string, line: string) {
    raw == line + "\r" || (raw == line && (line == "" || line[|line| - 1] != '\r'))
  }

  lemma BodyOf(raw: string)
    ensures IsBody(raw, TrimCr(raw)) && forall line :: IsBody(raw, line) ==> line == TrimCr(raw)
  {
    if raw != "" && raw[|raw| - 1] == '\r' {
      assert raw == raw[..|raw| - 1] + "\r";
    }
    forall line | IsBody(raw, line) ensures line == TrimCr(raw) {
      if raw == line + "\r" {
        assert raw[|raw| - 1] == '\r' && raw[..|raw| - 1] == line;
      }
    }
  }

  // This line answers a command with env.
  ghost predicate Replies(d: Decoders, raw: string, env: Envelope) {
    exists line :: IsBody(raw, line) && !AllOf(line, IsSpace) && d.envelope(line) == Some(env) && env.typ == "response"
  }

  ghost predicate IsReply(d: Decoders, raw: string) {
    exists env :: Replies(d, raw, env)
  }

  lemma ReplyMeans(d: Decoders, raw: string, env: Envelope)
    ensures Replies(d, raw, env) <==> FateOf(d, raw) == Command(env)
  {
    BodyOf(raw);
    TrimEmpty(TrimCr(raw), IsSpace);
    assert IsBody(raw, TrimCr(raw));
  }

  lemma IsReplyMeans(d: Decoders, raw: string)
    ensures IsReply(d, raw) <==> FateOf(d, raw).Command?
  {
    if FateOf(d, raw).Command? {
      ReplyMeans(d, raw, FateOf(d, raw).env);
    }
    if env :| Replies(d, raw, env) {
      ReplyMeans(d, raw, env);
    }
  }

  // How many of the lines answer a command
  ghost function ReplyCount(d: Decoders, lines: seq<string>): nat {
    if lines == [] then 0 else (if IsReply(d, lines[0]) then 1 else 0) + ReplyCount(d, lines[1..])
  }

  lemma {:induction false} RoutedCount(d: Decoders, lines: seq<string>)
    ensures |Routed(Fates(d), lines)| == ReplyCount(d, lines)
  {
    if lines != [] {
      IsReplyMeans(d, lines[0]);
      RoutedCount(d, lines[1..]);
    }
  }

  lemma RoutedAt(d: Decoders, lines: seq<string>, k: nat, env: Envelope)
    requires k < |lines| && Replies(d, lines[k], env)
    ensures var n := ReplyCount(d, lines[..k]); n < |Routed(Fates(d), lines)| && Routed(Fates(d), lines)[n] == env
  {
    ReplyMeans(d, lines[k], env);
    RoutedCount(d, lines[..k]);
    Parted(lines, k);
    RoutedSplit(Fates(d), lines[..k], lines[k], lines[k + 1..], env);
    MiddleAt(Routed(Fates(d), lines[..k]), env, Routed(Fates(d), lines[k + 1..]));
  }

  lemma Parted(lines: seq<string>, k: nat)
    requires k < |lines|
    ensures lines == lines[..k] + ([lines[k]] + lines[k + 1..])
  {
  }

  lemma MiddleAt<T>(a: seq<T>, x: T, b: seq<T>)
    ensures |a| < |a + ([x] + b)| && (a + ([x] + b))[|a|] == x
  {
  }

  lemma RoutedSplit(fate: string -> Fate, front: seq<string>, raw: string, rest: seq<string>, env: Envelope)
    requires fate(raw) == Command(env)
    ensures Routed(fate, front + ([raw] + rest)) == Routed(fate, front) + ([env] + Routed(fate, rest))
  {
    Appends(fate, front, [raw] + rest);
    Appends(fate, [raw], rest);
    OneLine(fate, raw);
  }

  // In any run that reads the stream, whatever the others do, a line that is not blank and decodes to a response is
  // among the response lines the protocol has seen, at the place given by the earlier such lines; and no other line is.
  lemma ReplyIsSeen(acts: seq<Action>, t: State, d: Decoders, stream: string)
    requires Run(INITIAL, acts) == Some(t) && ReadsStream(acts, Fates(d), stream)
    ensures |t.lines| == ReplyCount(d, Lines(stream))
    ensures forall k: nat, env :: k < |Lines(stream)| && Replies(d, Lines(stream)[k], env) ==>
      var n := ReplyCount(d, Lines(stream)[..k]); n < |t.lines| && t.lines[n].env == env
  {
    var lines := Lines(stream);
    ReaderFeedsProtocol(acts, t, Fates(d), stream);
    RoutedCount(d, lines);
    forall k: nat, env | k < |lines| && Replies(d, lines[k], env)
      ensures ReplyCount(d, lines[..k]) < |t.lines| && t.lines[ReplyCount(d, lines[..k])].env == env
    {
      RoutedAt(d, lines, k, env);
      assert Envs(t.lines)[ReplyCount(d, lines[..k])] == env;
    }
  }

  // An answered command returns what a response line with its own id decodes to.
  lemma AnswerIsAReply(acts: seq<Action>, t: State, d: Decoders, stream: string, c: nat, env: Envelope)
    requires Run(INITIAL, acts) == Some(t) && ReadsStream(acts, Fates(d), stream)
    requires At(t, c, Returned(Ok(env))) && !DrainedUnanswered(t, c)
    ensures env.id == Key(t.calls[c].num) && exists k :: 0 <= k < |Lines(stream)| && Replies(d, Lines(stream)[k], env)
  {
    AnswerIsALine(acts, t, Fates(d), stream, c, env);
    var k :| 0 <= k < |Lines(stream)| && Fates(d)(Lines(stream)[k]) == Command(env);
    ReplyMeans(d, Lines(stream)[k], env);
  }

  // ----- delivery -----

  // The reader's call is c and its line is line i.
  predicate Carrying(s: State, c: nat, i: nat) {
    c in s.calls && (s.calls[c].owner == Owner.Reader(i) || s.calls[c].owner == Answered(i))
  }

  lemma CarryingStep(s: State, a: Action, c: nat, i: nat)
    requires Inv(s) && Carrying(s, c, i) && i < |s.lines| && Enabled(s, a)
    ensures Carrying(Step(s, a), c, i) && i < |Step(s, a).lines| && Step(s, a).lines[i] == s.lines[i]
  {
    assert CallOk(s, c);
    if TouchesEntry(a) {
      CarryingEntry(s, a, c, i);
    } else {
      OwnerKept(s, a, c);
      LinesOnlyRead(s, a);
    }
  }

  lemma CarryingEntry(s: State, a: Action, c: nat, i: nat)
    requires Inv(s) && Carrying(s, c, i) && i < |s.lines| && Enabled(s, a) && TouchesEntry(a)
    ensures Carrying(Step(s, a), c, i) && s.lines <= Step(s, a).lines
  {
    forall key | key in s.pending ensures s.pending[key] != c {
      assert EntryOk(s, key);
    }
  }

  lemma {:induction false} CarryingRun(s: State, acts: seq<Action>, t: State, c: nat, i: nat)
    requires Inv(s) && Carrying(s, c, i) && i < |s.lines| && Run(s, acts) == Some(t)
    ensures Inv(t) && Carrying(t, c, i) && i < |t.lines| && t.lines[i] == s.lines[i]
    decreases |acts|
  {
    if acts != [] {
      InvStep(s, acts[0]);
      CarryingStep(s, acts[0], c, i);
      CarryingRun(Step(s, acts[0]), acts[1..], t, c, i);
    }
  }

  // A response whose id is pending is for that call: from then on, over any run, either the reader holds it and can
  // send it, or it has been sent on the call's channel, once, and is there until the call takes it. Whatever the call
  // returns without an error is that very envelope.
  lemma Delivered(s: State, env: Envelope, acts: seq<Action>, t: State)
    requires Reachable(s) && Enabled(s, ReadResponse(env)) && env.id in s.pending
    requires Run(Step(s, ReadResponse(env)), acts) == Some(t)
    ensures var c := s.pending[env.id];
      && c in s.calls && Key(s.calls[c].num) == env.id && c in t.calls
      && ((t.reader == Holding(c, env) && Enabled(t, ReaderSend))
          || (t.calls[c].chan.sends == 1 && (t.calls[c].chan.buf == [env] || t.calls[c].pc.Returned?)))
      && (forall e :: At(t, c, Returned(Ok(e))) ==> e == env)
  {
    ReachableKeeps(s);
    var c, i, mid := s.pending[env.id], |s.lines|, Step(s, ReadResponse(env));
    assert EntryOk(s, env.id);
    InvStep(s, ReadResponse(env));
    assert mid.lines[i] == Line(env, Some(c)) && Carrying(mid, c, i);
    CarryingRun(mid, acts, t, c, i);
    assert CallOk(t, c);
  }

  // ----- events -----

  // What a line adds to the log of events
  ghost function EventsOf(d: Decoders, line: string): seq<GatewayEvent> {
    if AllOf(line, IsSpace) || d.envelope(line).None? || d.envelope(line).value.typ == "response" then []
    else MapRPCLine(d, line)
  }

  // The log grows line by line by exactly that.
  lemma LogGrows(d: Decoders, lines: seq<string>, k: nat, line: string)
    requires k < |lines| && IsBody(lines[k], line)
    ensures Log(Fates(d), lines[..k + 1]) == Log(Fates(d), lines[..k]) + EventsOf(d, line)
  {
    var fate := Fates(d);
    BodyOf(lines[k]);
    TrimEmpty(line, IsSpace);
    assert lines[..k + 1] == lines[..k] + [lines[k]];
    Appends(fate, lines[..k], [lines[k]]);
    OneLine(fate, lines[k]);
  }

  // And that is what a subscriber from before the first event gets, over any run of the protocol.
  lemma FeedOfPi(
    acts: seq<Action>, t: State, ops: seq<Fanout.Op>, before: seq<Fanout.Op>, after: seq<Fanout.Op>, id: nat,
    d: Decoders, stream: string)
    requires Run(INITIAL, acts) == Some(t) && ReadsStream(acts, Fates(d), stream)
    requires WithoutReceives(ops) == Ops(acts) && ops == before + [Fanout.Subscribe] + after
    requires EventFeed.Broadcasts(before) == [] && id == Fanout.ApplyAll(HUB, before).nextId + 1
    ensures var h := Fanout.ApplyAll(HUB, ops);
      && id in h.streams
      && (h.streams[id].received + h.streams[id].buf == Log(Fates(d), Lines(stream))
          <==> Fanout.NeverOver(128, Fanout.Project(after, id)) && EventFeed.NoneLate(after, id))
  {
    FeedOfRun(acts, t, ops, before, after, id, Fates(d), stream);
  }

  // The reader's body meets what the theorems about any body assume.
  lemma FatesMeetAssumptions(d: Decoders)
    ensures AtMostOne(Fates(d)) && CommandsAreResponses(Fates(d))
  {
  }
}
