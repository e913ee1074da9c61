/**
 * The bus's message envelope (messaging_bus.py): the five message types, the
 * `Message` record, its dictionary form (`to_dict` / `from_dict`), `reply`, and the
 * dot-segment topic patterns that subscriptions use.
 */
module Messages {
  import opened Wrappers
  import opened Values
  import opened Strings

  datatype MessageType = Intent | Event | Response | Error | Signal

  /** The enum's string value, as it appears on the wire. */
  function TypeName(t: MessageType): string {
    match t
    case Intent => "intent"
    case Event => "event"
    case Response => "response"
    case Error => "error"
    case Signal => "signal"
  }

  /** `MessageType(s)`: the member whose value is `s`; any other string is rejected. */
  function ParseType(s: string): (r: Option<MessageType>)
    ensures r.Some? ==> TypeName(r.value) == s
    ensures r.None? ==> forall t: MessageType :: TypeName(t) != s
  {
    if s == "intent" then Some(Intent)
    else if s == "event" then Some(Event)
    else if s == "response" then Some(Response)
    else if s == "error" then Some(Error)
    else if s == "signal" then Some(Signal)
    else None
  }

  /** Every type survives the trip through its name. */
  lemma ParseTypeName(t: MessageType)
    ensures ParseType(TypeName(t)) == Some(t)
  {
  }

  datatype Message = Message(
    kind: MessageType,
    source: string,
    target: Option<string>,
    payload: Dict,
    metadata: Dict,
    messageId: string,
    correlationId: Option<string>,
    timestamp: string)

  /** `self.correlation_id or self.message_id`: a missing or empty correlation id
      falls back to the message's own id. */
  function WireCorrelation(m: Message): string {
    if m.correlationId.None? || m.correlationId.value == "" then m.messageId
    else m.correlationId.value
  }

  function OptionalString(o: Option<string>): Value {
    if o.None? then Null else Str(o.value)
  }

  /** `Message.to_dict`: every field under its wire key. */
  function ToDict(m: Message): (d: Dict)
    ensures d.Keys == WireKeys
    ensures d["correlation_id"] == Str(WireCorrelation(m))
  {
    map[
      "type" := Str(TypeName(m.kind)),
      "source" := Str(m.source),
      "target" := OptionalString(m.target),
      "payload" := Obj(m.payload),
      "metadata" := Obj(m.metadata),
      "message_id" := Str(m.messageId),
      "correlation_id" := Str(WireCorrelation(m)),
      "timestamp" := Str(m.timestamp)]
  }

  const WireKeys: set<string> :=
    {"type", "source", "target", "payload", "metadata", "message_id", "correlation_id", "timestamp"}

  datatype DecodeError =
    | MissingKey(key: string)      // `data['type']` or `data['source']` absent: KeyError
    | UnknownType(name: Value)     // `MessageType(...)` of anything but a type name: ValueError
    | IllTyped(key: string)        // a field whose value has a type the model does not carry

  /** `data['type']` is present and names one of the five types. */
  predicate KnownType(d: Dict) {
    "type" in d && d["type"].Str? && ParseType(d["type"].s).Some?
  }

  /** The value types the `Message` fields are declared with: strings for the
      source, id and timestamp, optional strings for target and correlation id,
      dictionaries for payload and metadata. */
  predicate HasDeclaredType(key: string, v: Value) {
    if key == "source" || key == "message_id" || key == "timestamp" then v.Str?
    else if key == "target" || key == "correlation_id" then v.Str? || v.Null?
    else if key == "payload" || key == "metadata" then v.Obj?
    else true
  }

  /** Every field present in `d` holds a value of its declared type. */
  predicate DeclaredTypes(d: Dict) {
    forall key :: key in d && key != "type" ==> HasDeclaredType(key, d[key])
  }

  function StringField(d: Dict, key: string, default: string): Result<string, DecodeError> {
    if key !in d then Ok(default)
    else if d[key].Str? then Ok(d[key].s)
    else Err(IllTyped(key))
  }

  function OptionalStringField(d: Dict, key: string): Result<Option<string>, DecodeError> {
    if key !in d || d[key].Null? then Ok(None)
    else if d[key].Str? then Ok(Some(d[key].s))
    else Err(IllTyped(key))
  }

  function DictField(d: Dict, key: string): Result<Dict, DecodeError> {
    if key !in d then Ok(map[])
    else if d[key].Obj? then Ok(d[key].fields)
    else Err(IllTyped(key))
  }

  /**
   * `Message.from_dict`: `type` and `source` are required, the rest have defaults.
   * `freshId` and `now` stand for the uuid and the clock reading that the defaults
   * of `message_id` and `timestamp` would draw.
   */
  function FromDict(d: Dict, freshId: string, now: string): (r: Result<Message, DecodeError>)
    ensures "type" !in d ==> r == Err(MissingKey("type"))
    ensures "type" in d && (!d["type"].Str? || ParseType(d["type"].s).None?) ==>
              r == Err(UnknownType(d["type"]))
    ensures KnownType(d) && "source" !in d ==> r == Err(MissingKey("source"))
    ensures KnownType(d) && "source" in d && DeclaredTypes(d) ==> r.Ok?
    ensures r.Err? && r.error.IllTyped? ==>
              r.error.key in d && r.error.key in WireKeys && !HasDeclaredType(r.error.key, d[r.error.key])
    ensures r.Ok? ==> TypeName(r.value.kind) == d["type"].s && Get(d, "source") == Str(r.value.source)
    ensures r.Ok? ==> OptionalString(r.value.target) == Get(d, "target")
    ensures r.Ok? ==> OptionalString(r.value.correlationId) == Get(d, "correlation_id")
    ensures r.Ok? ==> Obj(r.value.payload) == (if "payload" in d then d["payload"] else Obj(map[]))
    ensures r.Ok? ==> Obj(r.value.metadata) == (if "metadata" in d then d["metadata"] else Obj(map[]))
    ensures r.Ok? ==> Str(r.value.messageId) == (if "message_id" in d then d["message_id"] else Str(freshId))
    ensures r.Ok? ==> Str(r.value.timestamp) == (if "timestamp" in d then d["timestamp"] else Str(now))
  {
    if "type" !in d then Err(MissingKey("type"))
    else if !d["type"].Str? || ParseType(d["type"].s).None? then Err(UnknownType(d["type"]))
    else if "source" !in d then Err(MissingKey("source"))
    else if !d["source"].Str? then Err(IllTyped("source"))
    else
      var target := OptionalStringField(d, "target");
      var payload := DictField(d, "payload");
      var metadata := DictField(d, "metadata");
      var id := StringField(d, "message_id", freshId);
      var correlation := OptionalStringField(d, "correlation_id");
      var timestamp := StringField(d, "timestamp", now);
      if target.Err? then Err(target.error)
      else if payload.Err? then Err(payload.error)
      else if metadata.Err? then Err(metadata.error)
      else if id.Err? then Err(id.error)
      else if correlation.Err? then Err(correlation.error)
      else if timestamp.Err? then Err(timestamp.error)
      else Ok(Message(ParseType(d["type"].s).value, d["source"].s, target.value, payload.value,
                      metadata.value, id.value, correlation.value, timestamp.value))
  }

  /**
   * Decoding the dictionary form gives the message back, except that the
   * correlation id is now explicit: the one `to_dict` put on the wire.
   */
  lemma FromToDict(m: Message, freshId: string, now: string)
    ensures FromDict(ToDict(m), freshId, now) == Ok(m.(correlationId := Some(WireCorrelation(m))))
  {
    ParseTypeName(m.kind);
  }

  /** Encoding is stable: re-encoding a decoded dictionary gives the same dictionary. */
  lemma ToFromToDict(m: Message, freshId: string, now: string)
    ensures FromDict(ToDict(m), freshId, now).Ok?
    ensures ToDict(FromDict(ToDict(m), freshId, now).value) == ToDict(m)
  {
    FromToDict(m, freshId, now);
  }

  /**
   * `Message.reply`: a RESPONSE addressed back to the sender, from the original
   * target (or "" when there was none), correlated with the original message id.
   * `payload` is None when the caller gave none; `newId` and `now` are the reply's
   * own generated id and timestamp.
   */
  function Reply(m: Message, payload: Option<Dict>, newId: string, now: string): (r: Message)
    ensures r.kind == Response
    ensures r.correlationId == Some(m.messageId)
    ensures r.target == Some(m.source)
    ensures r.source == (if m.target.None? then "" else m.target.value)
    ensures r.payload == (if payload.None? then map[] else payload.value)
  {
    Message(Response,
            if m.target.None? || m.target.value == "" then "" else m.target.value,
            Some(m.source),
            if payload.None? || payload.value == map[] then map[] else payload.value,
            map[], newId, Some(m.messageId), now)
  }

  /** On the wire, a reply to a message with a non-empty id carries that id as its
      correlation id, so the requester can recognise it. */
  lemma ReplyWireCorrelation(m: Message, payload: Option<Dict>, newId: string, now: string)
    requires m.messageId != ""
    ensures ToDict(Reply(m, payload, newId, now))["correlation_id"] == Str(m.messageId)
  {
  }

  // ---------------------------------------------------------------------------
  // Topic patterns: `MessageBus._match_pattern`

  function Segments(s: string): (r: seq<string>)
    ensures |r| >= 1
  {
    SplitOn(s, ".")
  }

  /** A pattern matches a topic when both have equally many dot-separated segments
      and each pattern segment is the wildcard "*" or equals the topic's segment. */
  predicate Matches(pattern: string, topic: string) {
    var ps, ts := Segments(pattern), Segments(topic);
    |ps| == |ts| && forall k :: 0 <= k < |ps| ==> ps[k] == "*" || ps[k] == ts[k]
  }

  /** `_match_pattern`: compares the segments pairwise, returning early on a mismatch. */
  method MatchPattern(pattern: string, topic: string) returns (b: bool)
    ensures b == Matches(pattern, topic)
  {
    var ps := Segments(pattern);
    var ts := Segments(topic);
    if |ps| != |ts| {
      return false;
    }
    var i := 0;
    while i < |ps|
      invariant 0 <= i <= |ps|
      invariant forall k :: 0 <= k < i ==> ps[k] == "*" || ps[k] == ts[k]
    {
      if ps[i] == "*" {
        i := i + 1;
        continue;
      }
      if ps[i] != ts[i] {
        return false;
      }
      i := i + 1;
    }
    return true;
  }

  /** Only a whole segment "*" is a wildcard: a pattern none of whose segments is
      exactly "*" matches its own text and nothing else. */
  lemma LiteralPatternMatchesOnlyItself(pattern: string, topic: string)
    requires forall k :: 0 <= k < |Segments(pattern)| ==> Segments(pattern)[k] != "*"
    ensures Matches(pattern, topic) <==> pattern == topic
  {
    if Matches(pattern, topic) {
      assert Segments(pattern) == Segments(topic);
      SplitInjective(pattern, topic, ".");
    }
  }

  /** "ec*.x" holds a '*', so `subscribe` files it as a wildcard pattern, yet it
      matches only the literal topic "ec*.x". */
  lemma EmbeddedStarIsLiteral(topic: string)
    ensures '*' in "ec*.x"
    ensures Matches("ec*.x", topic) <==> topic == "ec*.x"
  {
    var p := "ec*.x";
    StartsWithChar(p, '.');
    StartsWithChar(p[1..], '.');
    StartsWithChar(p[2..], '.');
    StartsWithChar(p[3..], '.');
    StartsWithChar(p[4..], '.');
    var r5 := SplitOn(p[5..], ".");
    assert p[5..] == [] && r5 == [""];
    assert p[4..][1..] == p[5..];
    var r4 := SplitOn(p[4..], ".");
    assert r4 == [[p[4]] + r5[0]] + r5[1..];
    assert [p[4]] + r5[0] == "x" && r5[1..] == [];
    assert p[3..][1..] == p[4..];
    var r3 := SplitOn(p[3..], ".");
    assert r3 == [""] + r4;
    assert p[2..][1..] == p[3..];
    var r2 := SplitOn(p[2..], ".");
    assert r2 == [[p[2]] + r3[0]] + r3[1..];
    assert [p[2]] + r3[0] == "*" && r3[1..] == ["x"];
    assert p[1..][1..] == p[2..];
    var r1 := SplitOn(p[1..], ".");
    assert r1 == [[p[1]] + r2[0]] + r2[1..];
    assert [p[1]] + r2[0] == "c*" && r2[1..] == ["x"];
    var r0 := SplitOn(p, ".");
    assert r0 == [[p[0]] + r1[0]] + r1[1..];
    assert [p[0]] + r1[0] == "ec*" && r1[1..] == ["x"];
    assert Segments(p) == ["ec*", "x"];
    LiteralPatternMatchesOnlyItself(p, topic);
  }

  /** Segment counts must agree: no pattern matches two topics of different lengths. */
  lemma NoPatternSpansLengths(pattern: string, t1: string, t2: string)
    requires |Segments(t1)| != |Segments(t2)|
    ensures !(Matches(pattern, t1) && Matches(pattern, t2))
  {
  }
}
