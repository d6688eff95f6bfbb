// The naming scheme of the events: what each type of line is called once it is passed on, and when it is.
module EventNames {
  import opened Options
  import opened Gateway
  import opened LineDemux

  // One event of that name: always, or if the line's own struct decodes.
  ghost predicate Sends(events: seq<GatewayEvent>, name: string, sent: bool) {
    if sent then |events| == 1 && events[0].typ == name else events == []
  }

  // ----- the parts of a message -----

  lemma TextNames(phase: string)
    requires phase in {"start", "delta", "end"}
    ensures AssistantEvent("text_" + phase) == Some("agent.text." + phase)
  {
    assert "text_" + "start" == "text_start" && "text_" + "delta" == "text_delta" && "text_" + "end" == "text_end";
    assert "agent.text." + "start" == "agent.text.start" && "agent.text." + "delta" == "agent.text.delta";
    assert "agent.text." + "end" == "agent.text.end";
  }

  lemma ThinkingNames(phase: string)
    requires phase in {"start", "delta", "end"}
    ensures AssistantEvent("thinking_" + phase) == Some("agent.thinking." + phase)
  {
    assert "thinking_" + "start" == "thinking_start" && "thinking_" + "delta" == "thinking_delta";
    assert "thinking_" + "end" == "thinking_end" && "agent.thinking." + "start" == "agent.thinking.start";
    assert "agent.thinking." + "delta" == "agent.thinking.delta" && "agent.thinking." + "end" == "agent.thinking.end";
  }

  lemma ToolcallNames(phase: string)
    requires phase in {"start", "delta", "end"}
    ensures AssistantEvent("toolcall_" + phase) == Some("agent.toolcall." + phase)
  {
    assert "toolcall_" + "start" == "toolcall_start" && "toolcall_" + "delta" == "toolcall_delta";
    assert "toolcall_" + "end" == "toolcall_end" && "agent.toolcall." + "start" == "agent.toolcall.start";
    assert "agent.toolcall." + "delta" == "agent.toolcall.delta" && "agent.toolcall." + "end" == "agent.toolcall.end";
  }

  lemma SignalNames(signal: string)
    requires signal in {"start", "done", "error"}
    ensures AssistantEvent(signal) == Some("agent.message." + signal)
  {
    assert "agent.message." + "start" == "agent.message.start" && "agent.message." + "done" == "agent.message.done";
    assert "agent.message." + "error" == "agent.message.error";
  }

  // A message update whose struct decodes is passed on under its part's name, with its line; one of another part is
  // not known, and one whose struct does not decode is lost.
  lemma UpdateNames(d: Decoders, line: string)
    requires d.typeOf(line) == Some("message_update")
    ensures MapRPCLine(d, line) == match d.assistant(line)
      case None => []
      case Some(part) =>
        if AssistantEvent(part).Some? then [GatewayEvent(AssistantEvent(part).value, Decoded(line))]
        else [GatewayEvent("agent.unknown", Unknown("message_update." + part, line))]
  {
  }

  // ----- the life of a run -----

  lemma RunNames(d: Decoders, line: string, phase: string)
    requires phase in {"start", "end"} && d.typeOf(line) == Some("agent_" + phase)
    ensures Sends(MapRPCLine(d, line), "agent.run." + phase, true)
  {
    assert "agent_" + "start" == "agent_start" && "agent_" + "end" == "agent_end";
    assert "agent.run." + "start" == "agent.run.start" && "agent.run." + "end" == "agent.run.end";
  }

  lemma TurnNames(d: Decoders, line: string, phase: string)
    requires phase in {"start", "end"} && d.typeOf(line) == Some("turn_" + phase)
    ensures Sends(MapRPCLine(d, line), "agent.turn." + phase, true)
  {
    assert "turn_" + "start" == "turn_start" && "turn_" + "end" == "turn_end";
    assert "agent.turn." + "start" == "agent.turn.start" && "agent.turn." + "end" == "agent.turn.end";
  }

  lemma MessageNames(d: Decoders, line: string, phase: string)
    requires phase in {"start", "end"} && d.typeOf(line) == Some("message_" + phase)
    ensures Sends(MapRPCLine(d, line), "agent.message." + phase, true)
  {
    assert "message_" + "start" == "message_start" && "message_" + "end" == "message_end";
    assert "agent.message." + "start" == "agent.message.start" && "agent.message." + "end" == "agent.message.end";
  }

  lemma CompactionNames(d: Decoders, line: string, phase: string)
    requires phase in {"start", "end"} && d.typeOf(line) == Some("compaction_" + phase)
    ensures Sends(MapRPCLine(d, line), "agent.compaction." + phase, true)
  {
    assert "compaction_" + "start" == "compaction_start" && "compaction_" + "end" == "compaction_end";
    assert "agent.compaction." + "start" == "agent.compaction.start" && "agent.compaction." + "end" == "agent.compaction.end";
  }

  // ----- what is only sent if its own struct decodes -----

  lemma ToolNames(d: Decoders, line: string, phase: string)
    requires phase in {"start", "update", "end"} && d.typeOf(line) == Some("tool_execution_" + phase)
    ensures Sends(MapRPCLine(d, line), "agent.tool." + phase, d.fits(line))
  {
    assert "tool_execution_" + "start" == "tool_execution_start" && "tool_execution_" + "end" == "tool_execution_end";
    assert "tool_execution_" + "update" == "tool_execution_update" && "agent.tool." + "start" == "agent.tool.start";
    assert "agent.tool." + "update" == "agent.tool.update" && "agent.tool." + "end" == "agent.tool.end";
  }

  lemma RetryNames(d: Decoders, line: string, phase: string)
    requires phase in {"start", "end"} && d.typeOf(line) == Some("auto_retry_" + phase)
    ensures Sends(MapRPCLine(d, line), "agent.retry." + phase, d.fits(line))
  {
    assert "auto_retry_" + "start" == "auto_retry_start" && "auto_retry_" + "end" == "auto_retry_end";
    assert "agent.retry." + "start" == "agent.retry.start" && "agent.retry." + "end" == "agent.retry.end";
  }

  lemma RequestNames(d: Decoders, line: string)
    ensures d.typeOf(line) == Some("queue_update") ==> Sends(MapRPCLine(d, line), "agent.queue.update", d.fits(line))
    ensures d.typeOf(line) == Some("extension_ui_request") ==> Sends(MapRPCLine(d, line), "agent.ui.request", d.fits(line))
    ensures d.typeOf(line) == Some("extension_error") ==> Sends(MapRPCLine(d, line), "agent.extension.error", d.fits(line))
  {
  }

  // ----- everything else -----

  const KNOWN: set<string> := {"response", "message_update", "agent_start", "agent_end", "turn_start", "turn_end",
    "message_start", "message_end", "tool_execution_start", "tool_execution_update", "tool_execution_end",
    "compaction_start", "compaction_end", "auto_retry_start", "auto_retry_end", "queue_update",
    "extension_ui_request", "extension_error"}

  // A line of any other type is passed on as unknown, with its type and the line itself; one that does not decode at
  // all is lost.
  lemma OtherNames(d: Decoders, line: string)
    ensures d.typeOf(line).Some? && d.typeOf(line).value !in KNOWN ==>
      MapRPCLine(d, line) == [GatewayEvent("agent.unknown", Unknown(d.typeOf(line).value, line))]
    ensures d.typeOf(line).None? ==> MapRPCLine(d, line) == []
  {
  }

  // Whatever is sent carries the line it was made from; only the two start signals that have no contents, and a line
  // sent although its struct does not decode, carry nothing.
  lemma Payloads(d: Decoders, line: string)
    requires MapRPCLine(d, line) != [] && d.typeOf(line) != Some("message_update")
    ensures var p := MapRPCLine(d, line)[0].payload;
      && (p == Zero <==> d.typeOf(line).value in {"agent_start", "turn_start"} || (d.typeOf(line).value in KNOWN && !d.fits(line)))
      && (p.Decoded? ==> p.raw == line) && (p.Unknown? ==> p.raw == line && d.typeOf(line).value !in KNOWN)
  {
  }
}
