/**
 * `echo_agent` (async_echo_agent.py): answers every INTENT message with a reply
 * carrying the original payload, and ignores every other message. The reply's id
 * and timestamp, which `Message.reply` draws from uuid and the clock, are
 * parameters.
 */
module EchoResponder {
  import opened Wrappers
  import opened Values
  import opened Messages

  /** The payload of the echo reply. */
  function EchoPayload(m: Message): Dict {
    map["original_payload" := Obj(m.payload),
        "processed_by" := Str("echo_agent"),
        "timestamp" := Str(m.timestamp)]
  }

  /** The handler: only intents are answered, each with a response to its sender
      that is correlated with its id. */
  function EchoReply(m: Message, newId: string, now: string): (r: Option<Message>)
    ensures r.Some? <==> m.kind == Intent
    ensures r.Some? ==> r.value.kind == Response && r.value.target == Some(m.source)
                        && r.value.correlationId == Some(m.messageId)
  {
    if m.kind != Intent then None else Some(Reply(m, Some(EchoPayload(m)), newId, now))
  }

  /** The answer to an intent is a response to it: correlated with its id,
      addressed to its sender, sent from its target (or ""), and carrying its
      payload, the responder's name and its timestamp. */
  lemma AnswerRepliesToIntent(m: Message, newId: string, now: string)
    requires m.kind == Intent
    ensures var r := EchoReply(m, newId, now);
            r.Some?
            && r.value.kind == Response
            && r.value.correlationId == Some(m.messageId)
            && r.value.target == Some(m.source)
            && r.value.source == (if m.target.None? then "" else m.target.value)
            && r.value.payload.Keys == {"original_payload", "processed_by", "timestamp"}
            && r.value.payload["original_payload"] == Obj(m.payload)
            && r.value.payload["processed_by"] == Str("echo_agent")
            && r.value.payload["timestamp"] == Str(m.timestamp)
            && r.value.messageId == newId
  {
  }

  /** On the wire the answer carries the intent's id as its correlation id, so a
      `request` waiting on that id receives it. */
  lemma AnswerCorrelatesOnWire(m: Message, newId: string, now: string)
    requires m.kind == Intent && m.messageId != ""
    ensures ToDict(EchoReply(m, newId, now).value)["correlation_id"] == Str(m.messageId)
  {
    ReplyWireCorrelation(m, Some(EchoPayload(m)), newId, now);
  }
}
