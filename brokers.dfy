/**
 * The in-process brokers: `InMemoryBroker` (sios_messaging/inmemory.py) and the
 * module-level functions of sios_messaging.py, which do the same over two module
 * globals. Each keeps intents and responses in two separate FIFO queues; a receive
 * drains its queue. A `Broker` instance stands for either the broker object or the
 * module's pair of globals.
 */
module Brokers {
  import opened Values

  /** A `queue.Queue` of message dictionaries. */
  class Fifo {
    var items: seq<Dict>

    constructor ()
      ensures items == []
    {
      items := [];
    }

    /** `put`: at the tail. */
    method Put(x: Dict)
      modifies this
      ensures items == old(items) + [x]
    {
      items := items + [x];
    }

    /** The `while True: get(...); yield` loop, run to its end: every queued item,
        head first, until `get` finds the queue empty. */
    method Drain() returns (got: seq<Dict>)
      modifies this
      ensures got == old(items)
      ensures items == []
    {
      got := [];
      while items != []
        invariant got + items == old(items)
        decreases |items|
      {
        got := got + [items[0]];
        items := items[1..];
      }
    }
  }

  class Broker {
    const intents: Fifo
    const responses: Fifo

    /** The two queues are different objects. */
    ghost predicate Valid()
      reads this
    {
      intents != responses
    }

    constructor ()
      ensures Valid() && fresh(intents) && fresh(responses)
      ensures intents.items == [] && responses.items == []
    {
      intents := new Fifo();
      responses := new Fifo();
    }

    method SendIntent(intent: Dict)
      requires Valid()
      modifies intents
      ensures intents.items == old(intents.items) + [intent]
      ensures responses.items == old(responses.items)
    {
      intents.Put(intent);
    }

    method ReceiveIntents() returns (got: seq<Dict>)
      requires Valid()
      modifies intents
      ensures got == old(intents.items) && intents.items == []
      ensures responses.items == old(responses.items)
    {
      got := intents.Drain();
    }

    /** Acknowledging does nothing for an in-process queue. */
    method AcknowledgeIntent(intent: Dict)
      ensures intents.items == old(intents.items) && responses.items == old(responses.items)
    {
    }

    method PublishResponse(response: Dict)
      requires Valid()
      modifies responses
      ensures responses.items == old(responses.items) + [response]
      ensures intents.items == old(intents.items)
    {
      responses.Put(response);
    }

    method ReceiveResponses() returns (got: seq<Dict>)
      requires Valid()
      modifies responses
      ensures got == old(responses.items) && responses.items == []
      ensures intents.items == old(intents.items)
    {
      got := responses.Drain();
    }
  }

  /** On a fresh broker, an intent sent is the one intent received, a response
      published is the one response received, neither shows up on the other side,
      and a second receive finds nothing. */
  method SendReceiveRoundTrip(intent: Dict, response: Dict)
    returns (intentsGot: seq<Dict>, responsesGot: seq<Dict>, again: seq<Dict>)
    ensures intentsGot == [intent] && responsesGot == [response] && again == []
  {
    var b := new Broker();
    b.SendIntent(intent);
    b.PublishResponse(response);
    intentsGot := b.ReceiveIntents();
    responsesGot := b.ReceiveResponses();
    again := b.ReceiveIntents();
  }
}
