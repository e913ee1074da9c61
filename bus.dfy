/**
 * `MessageBus` (messaging_bus.py): topic routing tables and the delivery queues of
 * the subscribers. Each asyncio queue is an abstract id whose contents are a
 * sequence; each lock-free stretch of a coroutine between two awaits is one method.
 */
module Bus {
  import opened Wrappers
  import opened Values
  import opened Messages

  type QueueId = nat

  /** What `publish` puts on a queue: the topic and the message's dictionary form. */
  datatype Delivery = Delivery(topic: string, message: Dict)

  datatype BusError =
    | NotRunning                  // RuntimeError("Message bus is not running")
    | Timeout(requestId: string)  // asyncio.TimeoutError while waiting for a response
    | MissingResponseKey          // KeyError from `request`'s clean-up after `close`

  /** One step of a subscriber's message stream. */
  datatype Receipt =
    | Ended                                       // the bus stopped: the stream ends
    | Waiting                                     // nothing queued: the subscriber blocks
    | Received(message: Result<Message, DecodeError>)

  /** `x` repeated `n` times. */
  function Repeat<T>(x: T, n: nat): (r: seq<T>)
    ensures |r| == n && forall k :: 0 <= k < n ==> r[k] == x
  {
    if n == 0 then [] else Repeat(x, n - 1) + [x]
  }

  /** How many wildcard entries file queue `q` under a pattern matching `topic`. */
  function PatternHits(entries: seq<(string, QueueId)>, topic: string, q: QueueId): nat {
    if entries == [] then 0
    else
      var last := entries[|entries| - 1];
      PatternHits(entries[..|entries| - 1], topic, q)
        + (if last.1 == q && Matches(last.0, topic) then 1 else 0)
  }

  /** How many copies of a message published on `topic` queue `q` receives: one for
      an exact-topic subscription, one per matching wildcard entry. */
  function Fanout(subs: map<string, set<QueueId>>, entries: seq<(string, QueueId)>,
                  topic: string, q: QueueId): nat
  {
    (if topic in subs && q in subs[topic] then 1 else 0) + PatternHits(entries, topic, q)
  }

  /** The queues after publishing `item` on `topic`: each queue gains its fan-out. */
  function Published(queues: map<QueueId, seq<Delivery>>, subs: map<string, set<QueueId>>,
                     entries: seq<(string, QueueId)>, topic: string, item: Delivery)
    : (r: map<QueueId, seq<Delivery>>)
    ensures r.Keys == queues.Keys
  {
    map q | q in queues :: queues[q] + Repeat(item, Fanout(subs, entries, topic, q))
  }

  /** The exact topics among a subscriber's patterns: those without '*'. */
  function ExactTopics(pats: seq<string>): set<string> {
    set p | p in pats && '*' !in p
  }

  /** A single pattern's share of `ExactTopics` and of `WildcardPatterns`. */
  function ExactPart(p: string): set<string> {
    if '*' in p then {} else {p}
  }

  function WildcardPart(p: string): set<string> {
    if '*' in p then {p} else {}
  }

  /** The wildcard patterns among a subscriber's patterns: those holding '*'. */
  function WildcardPatterns(pats: seq<string>): set<string> {
    set p | p in pats && '*' in p
  }

  /** The wildcard entries `subscribe` appends for queue `q`, in pattern order. */
  function WildcardEntries(pats: seq<string>, q: QueueId): (r: seq<(string, QueueId)>)
    ensures forall k :: 0 <= k < |r| ==> r[k].1 == q && r[k].0 in WildcardPatterns(pats)
  {
    if pats == [] then []
    else
      var last := pats[|pats| - 1];
      WildcardEntries(pats[..|pats| - 1], q) + (if '*' in last then [(last, q)] else [])
  }

  /** The exact-topic table after `subscribe` adds queue `q` under `topics`. */
  function AddExact(subs: map<string, set<QueueId>>, topics: set<string>, q: QueueId)
    : map<string, set<QueueId>>
  {
    map t | t in subs.Keys + topics ::
      (if t in subs then subs[t] else {}) + (if t in topics then {q} else {})
  }

  /** The exact-topic table after queue `q` is discarded under `topics`, a topic
      whose set becomes empty being deleted. */
  function RemoveExact(subs: map<string, set<QueueId>>, topics: set<string>, q: QueueId)
    : map<string, set<QueueId>>
  {
    map t | t in subs && (t !in topics || subs[t] - {q} != {}) ::
      if t in topics then subs[t] - {q} else subs[t]
  }

  /** The wildcard list without the entries of queue `q` under `wild` patterns. */
  function RemoveEntries(entries: seq<(string, QueueId)>, wild: set<string>, q: QueueId)
    : (r: seq<(string, QueueId)>)
    ensures forall k :: 0 <= k < |r| ==> !(r[k].1 == q && r[k].0 in wild)
  {
    if entries == [] then []
    else
      var rest := RemoveEntries(entries[1..], wild, q);
      if entries[0].1 == q && entries[0].0 in wild then rest else [entries[0]] + rest
  }

  /** Removing entries under a set of patterns once per pattern, one pattern after
      another, is removing them under the whole set at once. */
  lemma {:induction false} RemoveEntriesStep(entries: seq<(string, QueueId)>, wild: set<string>,
                                             more: set<string>, q: QueueId)
    ensures RemoveEntries(RemoveEntries(entries, wild, q), more, q)
            == RemoveEntries(entries, wild + more, q)
  {
    if entries != [] {
      RemoveEntriesStep(entries[1..], wild, more, q);
    }
  }

  /** Entries of other queues survive removal; appended entries of `q` do not. */
  lemma {:induction false} RemoveAppendedEntries(entries: seq<(string, QueueId)>,
                                                 pats: seq<string>, q: QueueId)
    requires forall k :: 0 <= k < |entries| ==> entries[k].1 != q
    ensures RemoveEntries(entries + WildcardEntries(pats, q), WildcardPatterns(pats), q) == entries
    decreases |entries|
  {
    if entries == [] {
      assert entries + WildcardEntries(pats, q) == WildcardEntries(pats, q);
      RemoveOwnEntries(WildcardEntries(pats, q), WildcardPatterns(pats), q);
    } else {
      assert (entries + WildcardEntries(pats, q))[1..] == entries[1..] + WildcardEntries(pats, q);
      RemoveAppendedEntries(entries[1..], pats, q);
    }
  }

  lemma {:induction false} RemoveOwnEntries(entries: seq<(string, QueueId)>, wild: set<string>, q: QueueId)
    requires forall k :: 0 <= k < |entries| ==> entries[k].1 == q && entries[k].0 in wild
    ensures RemoveEntries(entries, wild, q) == []
  {
    if entries != [] {
      RemoveOwnEntries(entries[1..], wild, q);
    }
  }

  /**
   * Cancelling a subscription undoes it: for a queue that no table mentions yet, and
   * tables with no empty topic set, adding the queue under a pattern list and then
   * cleaning up under the same list gives back both tables exactly.
   */
  lemma SubscribeCancelRoundTrip(subs: map<string, set<QueueId>>, entries: seq<(string, QueueId)>,
                                 pats: seq<string>, q: QueueId)
    requires forall t :: t in subs ==> subs[t] != {} && q !in subs[t]
    requires forall k :: 0 <= k < |entries| ==> entries[k].1 != q
    ensures RemoveExact(AddExact(subs, ExactTopics(pats), q), ExactTopics(pats), q) == subs
    ensures RemoveEntries(entries + WildcardEntries(pats, q), WildcardPatterns(pats), q) == entries
  {
    ExactRoundTrip(subs, ExactTopics(pats), q);
    RemoveAppendedEntries(entries, pats, q);
  }

  /** The exact-topic half of the round trip, for any set of topics. */
  lemma ExactRoundTrip(subs: map<string, set<QueueId>>, topics: set<string>, q: QueueId)
    requires forall t :: t in subs ==> subs[t] != {} && q !in subs[t]
    ensures RemoveExact(AddExact(subs, topics, q), topics, q) == subs
  {
    var added := AddExact(subs, topics, q);
    var back := RemoveExact(added, topics, q);
    forall t | t in subs ensures t in back && back[t] == subs[t] {
      assert added[t] - {q} == subs[t];
    }
    assert back.Keys == subs.Keys;
  }

  /** Publishing on a topic that no table routes anywhere leaves every queue as it was. */
  lemma PublishWithoutSubscribers(queues: map<QueueId, seq<Delivery>>, subs: map<string, set<QueueId>>,
                                  entries: seq<(string, QueueId)>, topic: string, item: Delivery)
    requires topic !in subs
    requires forall k :: 0 <= k < |entries| ==> !Matches(entries[k].0, topic)
    ensures Published(queues, subs, entries, topic, item) == queues
  {
    var after := Published(queues, subs, entries, topic, item);
    forall q | q in queues ensures after[q] == queues[q] {
      NoHits(entries, topic, q);
      assert Repeat(item, Fanout(subs, entries, topic, q)) == [];
    }
  }

  lemma {:induction false} NoHits(entries: seq<(string, QueueId)>, topic: string, q: QueueId)
    requires forall k :: 0 <= k < |entries| ==> !Matches(entries[k].0, topic)
    ensures PatternHits(entries, topic, q) == 0
  {
    if entries != [] {
      NoHits(entries[..|entries| - 1], topic, q);
    }
  }

  class MessageBus {
    /** `_subscriptions`: exact topic to the set of subscribed queues. */
    var subscriptions: map<string, set<QueueId>>
    /** `_patterns`: the wildcard (pattern, queue) entries, in subscription order. */
    var patterns: seq<(string, QueueId)>
    /** The contents of every queue the bus has handed out. */
    var queues: map<QueueId, seq<Delivery>>
    /** `_running`. */
    var running: bool
    /** The next fresh queue id (stands for allocating a new `asyncio.Queue`). */
    var nextQueue: nat

    /** Every queue the tables name exists, and no exact topic keeps an empty set. */
    ghost predicate Valid()
      reads this
    {
      && (forall t :: t in subscriptions ==> subscriptions[t] != {} && subscriptions[t] <= queues.Keys)
      && (forall k :: 0 <= k < |patterns| ==> patterns[k].1 in queues)
      && (forall q :: q in queues ==> q < nextQueue)
    }

    constructor ()
      ensures Valid()
      ensures subscriptions == map[] && patterns == [] && queues == map[] && running
    {
      subscriptions := map[];
      patterns := [];
      queues := map[];
      running := true;
      nextQueue := 0;
    }

    /** A fresh queue, empty, that no table mentions yet. */
    method NewQueue() returns (q: QueueId)
      requires Valid()
      modifies this
      ensures Valid() && q !in old(queues) && queues == old(queues)[q := []]
      ensures subscriptions == old(subscriptions) && patterns == old(patterns) && running == old(running)
      ensures forall t :: t in subscriptions ==> q !in subscriptions[t]
      ensures forall k :: 0 <= k < |patterns| ==> patterns[k].1 != q
    {
      q := nextQueue;
      nextQueue := nextQueue + 1;
      queues := queues[q := []];
    }

    /** `queue.put(item)` on a queue the bus handed out. */
    method Enqueue(q: QueueId, item: Delivery)
      requires Valid() && q in queues
      modifies this
      ensures Valid()
      ensures queues == old(queues)[q := old(queues)[q] + [item]]
      ensures subscriptions == old(subscriptions) && patterns == old(patterns)
      ensures running == old(running) && nextQueue == old(nextQueue)
    {
      queues := queues[q := queues[q] + [item]];
    }

    /** `publish`: on a stopped bus, fail before enqueuing anything; otherwise enqueue
        one copy on each exact subscriber, then one per matching wildcard entry. */
    method Publish(topic: string, message: Message) returns (r: Result<(), BusError>)
      requires Valid()
      modifies this
      ensures Valid()
      ensures r.Err? <==> !old(running)
      ensures r.Err? ==> r.error == NotRunning && queues == old(queues)
      ensures r.Ok? ==> queues == Published(old(queues), subscriptions, patterns, topic,
                                            Delivery(topic, ToDict(message)))
      ensures subscriptions == old(subscriptions) && patterns == old(patterns)
      ensures running == old(running) && nextQueue == old(nextQueue)
    {
      if !running {
        return Err(NotRunning);
      }
      var item := Delivery(topic, ToDict(message));
      var direct := if topic in subscriptions then subscriptions[topic] else {};
      DeliverDirect(direct, item);
      ghost var afterDirect := queues;
      DeliverMatching(topic, item);
      PublishedInTwoRounds(old(queues), afterDirect, queues, subscriptions, patterns, topic, item);
      return Ok(());
    }

    /** The first loop of `publish`: one copy on every queue of the exact set. */
    method DeliverDirect(direct: set<QueueId>, item: Delivery)
      requires Valid() && direct <= queues.Keys
      modifies this
      ensures Valid()
      ensures queues.Keys == old(queues).Keys
      ensures forall q :: q in queues ==> queues[q] == old(queues)[q] + Repeat(item, if q in direct then 1 else 0)
      ensures subscriptions == old(subscriptions) && patterns == old(patterns)
      ensures running == old(running) && nextQueue == old(nextQueue)
    {
      var pending := direct;
      while pending != {}
        invariant Valid() && pending <= direct
        invariant queues.Keys == old(queues).Keys
        invariant forall q :: q in queues ==>
          queues[q] == old(queues)[q] + Repeat(item, if q in direct - pending then 1 else 0)
        invariant subscriptions == old(subscriptions) && patterns == old(patterns)
        invariant running == old(running) && nextQueue == old(nextQueue)
        decreases pending
      {
        var q :| q in pending;
        Enqueue(q, item);
        pending := pending - {q};
      }
    }

    /** The second loop of `publish`: one copy per wildcard entry matching the topic. */
    method DeliverMatching(topic: string, item: Delivery)
      requires Valid()
      modifies this
      ensures Valid()
      ensures queues.Keys == old(queues).Keys
      ensures forall q :: q in queues ==>
        queues[q] == old(queues)[q] + Repeat(item, PatternHits(patterns, topic, q))
      ensures subscriptions == old(subscriptions) && patterns == old(patterns)
      ensures running == old(running) && nextQueue == old(nextQueue)
    {
      var i := 0;
      while i < |patterns|
        invariant 0 <= i <= |patterns|
        invariant Valid()
        invariant queues.Keys == old(queues).Keys
        invariant forall q :: q in queues ==>
          queues[q] == old(queues)[q] + Repeat(item, PatternHits(patterns[..i], topic, q))
        invariant subscriptions == old(subscriptions) && patterns == old(patterns)
        invariant running == old(running) && nextQueue == old(nextQueue)
      {
        ghost var before := queues;
        DeliverIfMatching(i, topic, item);
        HitsAdvance(old(queues), before, queues, patterns, i, topic, item);
        i := i + 1;
      }
      assert patterns[..i] == patterns;
    }

    /** One turn of `publish`'s second loop: enqueue on the entry's queue if its
        pattern matches the topic. */
    method DeliverIfMatching(i: nat, topic: string, item: Delivery)
      requires Valid() && i < |patterns|
      modifies this
      ensures Valid()
      ensures subscriptions == old(subscriptions) && patterns == old(patterns)
      ensures queues.Keys == old(queues).Keys
      ensures forall q :: q in queues ==>
        queues[q] == old(queues)[q]
                     + Repeat(item, if patterns[i].1 == q && Matches(patterns[i].0, topic) then 1 else 0)
      ensures running == old(running) && nextQueue == old(nextQueue)
    {
      var (pattern, q) := patterns[i];
      var hit := MatchPattern(pattern, topic);
      if hit {
        Enqueue(q, item);
      }
    }

    /** `subscribe` (its registration part): a fresh queue, filed under every exact
        topic and appended, once per wildcard pattern, to the wildcard list. */
    method Subscribe(pats: seq<string>) returns (r: Result<QueueId, BusError>)
      requires Valid()
      modifies this
      ensures Valid()
      ensures r.Err? <==> !old(running)
      ensures r.Err? ==> r.error == NotRunning && subscriptions == old(subscriptions)
                         && patterns == old(patterns) && queues == old(queues)
      ensures r.Ok? ==> r.value !in old(queues) && queues == old(queues)[r.value := []]
      ensures r.Ok? ==> subscriptions == AddExact(old(subscriptions), ExactTopics(pats), r.value)
      ensures r.Ok? ==> patterns == old(patterns) + WildcardEntries(pats, r.value)
      ensures running == old(running)
    {
      if !running {
        return Err(NotRunning);
      }
      var q := NewQueue();
      var i := 0;
      assert ExactTopics(pats[..0]) == {} && WildcardEntries(pats[..0], q) == [];
      AddExactNone(subscriptions, q);
      while i < |pats|
        invariant 0 <= i <= |pats|
        invariant Valid() && q in queues
        invariant queues == old(queues)[q := []] && running == old(running)
        invariant subscriptions == AddExact(old(subscriptions), ExactTopics(pats[..i]), q)
        invariant patterns == old(patterns) + WildcardEntries(pats[..i], q)
      {
        PatternsSnoc(pats, i, q);
        AddExactStep(old(subscriptions), ExactTopics(pats[..i]), ExactPart(pats[i]), q);
        File(pats[i], q);
        i := i + 1;
      }
      assert pats[..i] == pats;
      return Ok(q);
    }

    /** One turn of `subscribe`'s registration loop: a pattern holding '*' is
        appended to the wildcard list, any other is filed as an exact topic. */
    method File(pattern: string, q: QueueId)
      requires Valid() && q in queues
      modifies this
      ensures Valid()
      ensures subscriptions == AddExact(old(subscriptions), ExactPart(pattern), q)
      ensures patterns == old(patterns) + (if '*' in pattern then [(pattern, q)] else [])
      ensures queues == old(queues) && running == old(running)
    {
      if '*' in pattern {
        patterns := patterns + [(pattern, q)];
        AddExactNone(subscriptions, q);
      } else {
        var current := if pattern in subscriptions then subscriptions[pattern] else {};
        subscriptions := subscriptions[pattern := current + {q}];
        AddExactOne(old(subscriptions), pattern, q);
      }
    }

    /** The clean-up `subscribe` runs when its consumer is cancelled: queue `q` leaves
        the wildcard list under each wildcard pattern and the exact set under each
        exact topic, and exact topics left without subscribers are deleted. */
    method Cancel(q: QueueId, pats: seq<string>)
      requires Valid()
      modifies this
      ensures Valid()
      ensures subscriptions == RemoveExact(old(subscriptions), ExactTopics(pats), q)
      ensures patterns == RemoveEntries(old(patterns), WildcardPatterns(pats), q)
      ensures queues == old(queues) && running == old(running)
    {
      var i := 0;
      RemoveEntriesNone(patterns, q);
      RemoveExactNone(subscriptions, q);
      assert ExactTopics(pats[..0]) == {} && WildcardPatterns(pats[..0]) == {};
      while i < |pats|
        invariant 0 <= i <= |pats|
        invariant Valid()
        invariant queues == old(queues) && running == old(running)
        invariant subscriptions == RemoveExact(old(subscriptions), ExactTopics(pats[..i]), q)
        invariant patterns == RemoveEntries(old(patterns), WildcardPatterns(pats[..i]), q)
      {
        PatternsSnoc(pats, i, q);
        RemoveExactStep(old(subscriptions), ExactTopics(pats[..i]), ExactPart(pats[i]), q);
        RemoveEntriesStep(old(patterns), WildcardPatterns(pats[..i]), WildcardPart(pats[i]), q);
        Discard(pats[i], q);
        i := i + 1;
      }
      assert pats[..i] == pats;
    }

    /** One turn of the clean-up loop: under a wildcard pattern, the list keeps the
        entries that are not (pattern, q); under an exact topic, q leaves its set and
        an emptied topic is deleted. */
    method Discard(pattern: string, q: QueueId)
      requires Valid()
      modifies this
      ensures Valid()
      ensures subscriptions == RemoveExact(old(subscriptions), ExactPart(pattern), q)
      ensures patterns == RemoveEntries(old(patterns), WildcardPart(pattern), q)
      ensures queues == old(queues) && running == old(running)
    {
      if '*' in pattern {
        RemoveEntriesSubseq(patterns, {pattern}, q);
        patterns := RemoveEntries(patterns, {pattern}, q);
        RemoveExactNone(subscriptions, q);
      } else {
        RemoveEntriesNone(patterns, q);
        if pattern in subscriptions {
          var rest := subscriptions[pattern] - {q};
          if rest == {} {
            subscriptions := subscriptions - {pattern};
          } else {
            subscriptions := subscriptions[pattern := rest];
          }
        }
        assert subscriptions == RemoveExact(old(subscriptions), {pattern}, q);
      }
    }

    /** `request`, up to its await: a private queue subscribed to
        "response.<id>", then an INTENT from "system" to `topic` published. */
    method BeginRequest(topic: string, payload: Option<Dict>, id: string, now: string)
      returns (r: Result<(QueueId, Message), BusError>)
      requires Valid()
      modifies this
      ensures Valid()
      ensures r.Err? <==> !old(running)
      ensures r.Err? ==> r.error == NotRunning && subscriptions == old(subscriptions)
                         && patterns == old(patterns) && queues == old(queues)
      ensures r.Ok? ==> r.value.1 == RequestMessage(topic, payload, id, now)
      ensures r.Ok? ==> r.value.0 !in old(queues)
      ensures r.Ok? ==> subscriptions == AddExact(old(subscriptions), {ResponseTopic(id)}, r.value.0)
      ensures r.Ok? ==> queues == Published(old(queues)[r.value.0 := []], subscriptions, patterns,
                                            topic, Delivery(topic, ToDict(r.value.1)))
      ensures patterns == old(patterns) && running == old(running)
    {
      if !running {
        return Err(NotRunning);
      }
      var message := RequestMessage(topic, payload, id, now);
      var q := NewQueue();
      var key := ResponseTopic(id);
      var current := if key in subscriptions then subscriptions[key] else {};
      subscriptions := subscriptions[key := current + {q}];
      AddExactOne(old(subscriptions), key, q);
      ghost var before := queues;
      var published := Publish(topic, message);
      assert queues == Published(before, subscriptions, patterns, topic, Delivery(topic, ToDict(message)));
      return Ok((q, message));
    }

    /** `request`, after its await: the first response on the private queue if one
        was published (otherwise the wait times out), then the `finally` clean-up,
        which raises KeyError when `close` has already cleared the table. */
    method AwaitResponse(q: QueueId, id: string, freshId: string, now: string)
      returns (r: Result<Result<Message, DecodeError>, BusError>)
      requires Valid()
      modifies this
      ensures Valid()
      ensures ResponseTopic(id) !in old(subscriptions) ==> r == Err(MissingResponseKey)
      ensures ResponseTopic(id) in old(subscriptions) && q in old(queues) && old(queues)[q] != [] ==>
                r == Ok(FromDict(old(queues)[q][0].message, freshId, now))
      ensures ResponseTopic(id) in old(subscriptions) && (q !in old(queues) || old(queues)[q] == []) ==>
                r == Err(Timeout(id))
      ensures subscriptions == RemoveExact(old(subscriptions), {ResponseTopic(id)}, q)
      ensures queues == if q in old(queues) && old(queues)[q] != []
                        then old(queues)[q := old(queues)[q][1..]] else old(queues)
      ensures patterns == old(patterns) && running == old(running)
    {
      var outcome: Result<Result<Message, DecodeError>, BusError>;
      if q in queues && queues[q] != [] {
        var head := queues[q][0];
        queues := queues[q := queues[q][1..]];
        outcome := Ok(FromDict(head.message, freshId, now));
      } else {
        outcome := Err(Timeout(id));
      }
      var key := ResponseTopic(id);
      if key !in subscriptions {
        return Err(MissingResponseKey);
      }
      var rest := subscriptions[key] - {q};
      if rest == {} {
        subscriptions := subscriptions - {key};
      } else {
        subscriptions := subscriptions[key := rest];
      }
      return outcome;
    }

    /** One step of the stream `subscribe` yields: while the bus runs, the oldest
        queued dictionary, decoded. */
    method Receive(q: QueueId, freshId: string, now: string) returns (r: Receipt)
      requires Valid()
      modifies this
      ensures Valid()
      ensures !running ==> r == Ended && queues == old(queues)
      ensures running && (q !in old(queues) || old(queues)[q] == []) ==> r == Waiting && queues == old(queues)
      ensures running && q in old(queues) && old(queues)[q] != [] ==>
                r == Received(FromDict(old(queues)[q][0].message, freshId, now))
                && queues == old(queues)[q := old(queues)[q][1..]]
      ensures subscriptions == old(subscriptions) && patterns == old(patterns) && running == old(running)
    {
      if !running {
        return Ended;
      }
      if q !in queues || queues[q] == [] {
        return Waiting;
      }
      var head := queues[q][0];
      queues := queues[q := queues[q][1..]];
      return Received(FromDict(head.message, freshId, now));
    }

    /** `close`: stop the bus and clear both routing tables. The drain loop walks
        `_queues`, which nothing ever fills, so queued deliveries stay put. */
    method Close()
      requires Valid()
      modifies this
      ensures Valid()
      ensures !running && subscriptions == map[] && patterns == []
      ensures queues == old(queues)
    {
      running := false;
      subscriptions := map[];
      patterns := [];
    }
  }

  lemma AddExactNone(subs: map<string, set<QueueId>>, q: QueueId)
    ensures AddExact(subs, {}, q) == subs
  {
    var a := AddExact(subs, {}, q);
    forall t | t in a ensures a[t] == subs[t] {
    }
    assert a.Keys == subs.Keys;
  }

  lemma AddExactOne(subs: map<string, set<QueueId>>, t: string, q: QueueId)
    ensures AddExact(subs, {t}, q) == subs[t := (if t in subs then subs[t] else {}) + {q}]
  {
    var a := AddExact(subs, {t}, q);
    var b := subs[t := (if t in subs then subs[t] else {}) + {q}];
    forall u | u in a ensures u in b && a[u] == b[u] {
    }
    assert a.Keys == b.Keys;
  }

  /** Adding under more topics, after adding under a set of topics, is adding
      under the union. */
  lemma AddExactStep(subs: map<string, set<QueueId>>, topics: set<string>, more: set<string>, q: QueueId)
    ensures AddExact(AddExact(subs, topics, q), more, q) == AddExact(subs, topics + more, q)
  {
    var a := AddExact(AddExact(subs, topics, q), more, q);
    var b := AddExact(subs, topics + more, q);
    forall u | u in a ensures u in b && a[u] == b[u] {
    }
    assert a.Keys == b.Keys;
  }

  /** What one more pattern adds to the exact topics and to the wildcard entries. */
  lemma PatternsSnoc(pats: seq<string>, i: nat, q: QueueId)
    requires i < |pats|
    ensures ExactTopics(pats[..i + 1]) == ExactTopics(pats[..i]) + ExactPart(pats[i])
    ensures WildcardPatterns(pats[..i + 1]) == WildcardPatterns(pats[..i]) + WildcardPart(pats[i])
    ensures WildcardEntries(pats[..i + 1], q) ==
              WildcardEntries(pats[..i], q) + (if '*' in pats[i] then [(pats[i], q)] else [])
  {
    assert pats[..i + 1][..i] == pats[..i];
    assert pats[..i + 1] == pats[..i] + [pats[i]];
  }

  /** What one more wildcard entry adds to the hit count of each queue. */
  lemma HitsStep(entries: seq<(string, QueueId)>, i: nat, topic: string)
    requires i < |entries|
    ensures forall q :: PatternHits(entries[..i + 1], topic, q) ==
              PatternHits(entries[..i], topic, q)
              + (if entries[i].1 == q && Matches(entries[i].0, topic) then 1 else 0)
  {
    assert entries[..i + 1][..i] == entries[..i];
  }

  /** One more turn of `publish`'s second loop: the queues hold one copy per
      matching entry among the first `i + 1`. */
  lemma HitsAdvance(q0: map<QueueId, seq<Delivery>>, before: map<QueueId, seq<Delivery>>,
                    after: map<QueueId, seq<Delivery>>, entries: seq<(string, QueueId)>,
                    i: nat, topic: string, item: Delivery)
    requires i < |entries| && before.Keys == q0.Keys && after.Keys == before.Keys
    requires forall q :: q in before ==> before[q] == q0[q] + Repeat(item, PatternHits(entries[..i], topic, q))
    requires forall q :: q in after ==>
               after[q] == before[q] + Repeat(item, if entries[i].1 == q && Matches(entries[i].0, topic) then 1 else 0)
    ensures forall q :: q in after ==> after[q] == q0[q] + Repeat(item, PatternHits(entries[..i + 1], topic, q))
  {
    forall q | q in after
      ensures after[q] == q0[q] + Repeat(item, PatternHits(entries[..i + 1], topic, q))
    {
      HitsStep(entries, i, topic);
      RepeatSplit(item, PatternHits(entries[..i], topic, q),
                  if entries[i].1 == q && Matches(entries[i].0, topic) then 1 else 0);
    }
  }

  /** The exact round followed by the wildcard round delivers each queue its fan-out. */
  lemma PublishedInTwoRounds(q0: map<QueueId, seq<Delivery>>, q1: map<QueueId, seq<Delivery>>,
                             q2: map<QueueId, seq<Delivery>>, subs: map<string, set<QueueId>>,
                             entries: seq<(string, QueueId)>, topic: string, item: Delivery)
    requires q1.Keys == q0.Keys && q2.Keys == q1.Keys
    requires forall q :: q in q1 ==>
      q1[q] == q0[q] + Repeat(item, if topic in subs && q in subs[topic] then 1 else 0)
    requires forall q :: q in q2 ==> q2[q] == q1[q] + Repeat(item, PatternHits(entries, topic, q))
    ensures q2 == Published(q0, subs, entries, topic, item)
  {
    var expected := Published(q0, subs, entries, topic, item);
    forall q | q in q2 ensures q2[q] == expected[q] {
      RepeatSplit(item, if topic in subs && q in subs[topic] then 1 else 0, PatternHits(entries, topic, q));
    }
  }

  lemma RepeatSplit<T>(x: T, m: nat, n: nat)
    ensures Repeat(x, m) + Repeat(x, n) == Repeat(x, m + n)
  {
  }

  lemma RemoveExactNone(subs: map<string, set<QueueId>>, q: QueueId)
    ensures RemoveExact(subs, {}, q) == subs
  {
  }

  /** Discarding under more topics, after discarding under a set of topics, is
      discarding under the union. */
  lemma RemoveExactStep(subs: map<string, set<QueueId>>, topics: set<string>, more: set<string>, q: QueueId)
    ensures RemoveExact(RemoveExact(subs, topics, q), more, q) == RemoveExact(subs, topics + more, q)
  {
    var a := RemoveExact(RemoveExact(subs, topics, q), more, q);
    var b := RemoveExact(subs, topics + more, q);
    forall u | u in a ensures u in b && a[u] == b[u] {
    }
    forall u | u in b ensures u in a {
    }
  }

  lemma {:induction false} RemoveEntriesNone(entries: seq<(string, QueueId)>, q: QueueId)
    ensures RemoveEntries(entries, {}, q) == entries
  {
    if entries != [] {
      RemoveEntriesNone(entries[1..], q);
    }
  }

  lemma {:induction false} RemoveEntriesSubseq(entries: seq<(string, QueueId)>, wild: set<string>, q: QueueId)
    ensures forall k :: 0 <= k < |RemoveEntries(entries, wild, q)| ==>
              RemoveEntries(entries, wild, q)[k] in entries
  {
    if entries != [] {
      RemoveEntriesSubseq(entries[1..], wild, q);
    }
  }

  /** The private topic a request's response arrives on. */
  function ResponseTopic(id: string): string {
    "response." + id
  }

  /** The INTENT `request` publishes: from "system", addressed to the topic. */
  function RequestMessage(topic: string, payload: Option<Dict>, id: string, now: string): (m: Message)
    ensures m.kind == Intent && m.source == "system" && m.target == Some(topic)
    ensures m.messageId == id && m.correlationId.None?
  {
    Message(Intent, "system", Some(topic),
            if payload.None? || payload.value == map[] then map[] else payload.value,
            map[], id, None, now)
  }
}
