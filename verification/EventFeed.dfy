// From the process's output to a subscriber's channel: the reader's log put through the fan-out.
module EventFeed {
  import opened Gateway
  import opened LineDemux
  import opened Fanout

  function Broadcasts(ops: seq<Op>): seq<GatewayEvent> {
    if ops == [] then []
    else Broadcasts(ops[..|ops| - 1]) + (if ops[|ops| - 1].Broadcast? then [ops[|ops| - 1].event] else [])
  }

  // Unsubscribing, or the process's exit
  predicate Ends(op: Op, id: nat) {
    op == Unsubscribe(id) || op == CloseAll
  }

  predicate Ended(ops: seq<Op>, id: nat) {
    ops != [] && (Ends(ops[|ops| - 1], id) || Ended(ops[..|ops| - 1], id))
  }

  // How many events were broadcast too late for id: after its channel was closed.
  function Late(ops: seq<Op>, id: nat): nat {
    if ops == [] then 0
    else Late(ops[..|ops| - 1], id) + (if ops[|ops| - 1].Broadcast? && Ended(ops[..|ops| - 1], id) then 1 else 0)
  }

  ghost predicate NoneLate(ops: seq<Op>, id: nat) {
    forall i, j :: 0 <= i < j < |ops| && Ends(ops[i], id) ==> !ops[j].Broadcast?
  }

  lemma {:induction false} EndedMeans(ops: seq<Op>, id: nat)
    ensures Ended(ops, id) <==> exists i :: 0 <= i < |ops| && Ends(ops[i], id)
  {
    if ops != [] {
      var front := ops[..|ops| - 1];
      EndedMeans(front, id);
      forall i | 0 <= i < |ops| && Ends(ops[i], id) ensures Ended(ops, id) {
        if i < |front| {
          assert Ends(front[i], id);
        }
      }
      if Ended(front, id) {
        var i :| 0 <= i < |front| && Ends(front[i], id);
        assert Ends(ops[i], id);
      }
    }
  }

  lemma {:induction false} LateMeans(ops: seq<Op>, id: nat)
    ensures Late(ops, id) == 0 <==> NoneLate(ops, id)
  {
    if ops != [] {
      var front, last := ops[..|ops| - 1], |ops| - 1;
      LateMeans(front, id);
      EndedMeans(front, id);
      if NoneLate(front, id) && (!ops[last].Broadcast? || !Ended(front, id)) {
        forall i, j | 0 <= i < j < |ops| && Ends(ops[i], id) ensures !ops[j].Broadcast? {
          assert Ends(front[i], id);
          assert j < last ==> front[j] == ops[j];
        }
      }
      if NoneLate(ops, id) {
        assert forall i :: 0 <= i < last ==> front[i] == ops[i];
      }
    }
  }

  // What a subscriber hears is everything broadcast but the late events.
  lemma {:induction false} HearsAllButLate(ops: seq<Op>, id: nat)
    ensures |Heard(Project(ops, id))| + Late(ops, id) == |Broadcasts(ops)|
    ensures Late(ops, id) == 0 ==> Heard(Project(ops, id)) == Broadcasts(ops)
    ensures Shut in Project(ops, id) <==> Ended(ops, id)
    decreases |ops|
  {
    if ops != [] {
      HearsAllButLate(ops[..|ops| - 1], id);
      HearsOne(ops[|ops| - 1], id, Project(ops[..|ops| - 1], id));
    }
  }

  lemma HearsOne(op: Op, id: nat, local: seq<Local>)
    ensures Heard(local + Sees(op, id)) == Heard(local) + (if op.Broadcast? && Shut !in local then [op.event] else [])
    ensures Shut in local + Sees(op, id) <==> Shut in local || Ends(op, id)
  {
    if Sees(op, id) == [] {
      assert local + Sees(op, id) == local;
    } else {
      assert (local + Sees(op, id))[..|local|] == local;
    }
  }

  lemma {:induction false} KeptAll(offered: seq<Offered>)
    ensures |Kept(offered)| + Dropped(offered) == |offered| == |Events(offered)|
    ensures Dropped(offered) == 0 ==> Kept(offered) == Events(offered)
  {
    if offered != [] {
      KeptAll(offered[..|offered| - 1]);
    }
  }

  // A subscriber that was there when the process began to write, in any run that broadcasts the reader's log:
  // what it took and what its channel still holds is all of the log, in order, if and only if its backlog never
  // outgrew the channel and nothing was broadcast after the channel was closed.
  lemma FeedCompleteIff(h: Hub, before: seq<Op>, after: seq<Op>, id: nat, fate: string -> Fate, stream: string)
    requires HubOk(h) && id == ApplyAll(h, before).nextId + 1
    requires Broadcasts(after) == Log(fate, Lines(stream))
    ensures var t := ApplyAll(h, before + [Subscribe] + after);
      && id in t.streams
      && (t.streams[id].received + t.streams[id].buf == Log(fate, Lines(stream))
          <==> NeverOver(h.capacity, Project(after, id)) && NoneLate(after, id))
  {
    SubscriberLife(h, before, after, id);
    HearsAllButLate(after, id);
    LateMeans(after, id);
    LosslessIff(h.capacity, Project(after, id));
    KeptAll(ApplyAll(h, before + [Subscribe] + after).streams[id].offered);
  }

  // And every line is accounted for: it answered a command, left no trace, or became an event that the
  // subscriber took, still has waiting, lost to a full channel, or lost to having been closed before.
  lemma EveryLineAccounted(h: Hub, before: seq<Op>, after: seq<Op>, id: nat, fate: string -> Fate, stream: string)
    requires HubOk(h) && id == ApplyAll(h, before).nextId + 1
    requires Broadcasts(after) == Log(fate, Lines(stream)) && AtMostOne(fate)
    ensures var t := ApplyAll(h, before + [Subscribe] + after);
      && id in t.streams
      && |Lines(stream)| == |Routed(fate, Lines(stream))| + Silent(fate, Lines(stream))
                            + |t.streams[id].received| + |t.streams[id].buf| + Dropped(t.streams[id].offered)
                            + Late(after, id)
  {
    SubscriberLife(h, before, after, id);
    HearsAllButLate(after, id);
    LinesConserved(fate, Lines(stream));
    KeptAll(ApplyAll(h, before + [Subscribe] + after).streams[id].offered);
  }

  // The waiter can overtake the reader: when the process has exited and the channels are closed before the reader
  // broadcasts the lines it still has, every subscriber loses them, though its channel is empty.
  lemma ExitOvertakesReader(h: Hub, before: seq<Op>, id: nat, event: GatewayEvent)
    requires HubOk(h) && id == ApplyAll(h, before).nextId + 1
    ensures var t := ApplyAll(h, before + [Subscribe] + [CloseAll, Broadcast(event)]);
      id in t.streams && t.streams[id].received == [] && t.streams[id].buf == []
    ensures Broadcasts([CloseAll, Broadcast(event)]) == [event] && Late([CloseAll, Broadcast(event)], id) == 1
  {
    var after := [CloseAll, Broadcast(event)];
    assert after[..1] == [CloseAll] && [CloseAll][..0] == [];
    assert Broadcasts([CloseAll]) == [] && Ended([CloseAll], id) && Late([CloseAll], id) == 0;
    SubscriberLife(h, before, after, id);
    HearsAllButLate(after, id);
    KeptAll(ApplyAll(h, before + [Subscribe] + after).streams[id].offered);
  }
}
