/**
 * The in-memory topic queue of inmemoryqueue.cpp.
 *
 * Each topic has a FIFO of messages and a list of subscribed callbacks.
 * publish pushes a message and at once drains the topic's queue, handing
 * every message, oldest first, to every callback of the topic in the order
 * they subscribed. A callback is modelled by a subscriber id, and a call
 * `callback(message, topic)` by a Delivery appended to a log.
 */
module TopicQueue {

  type Topic = string
  type Message = string

  /** Stands for one subscribed callback. */
  type SubscriberId = nat

  /** One call `callback(message, topic)`. */
  datatype Delivery = Delivery(subscriber: SubscriberId, message: Message, topic: Topic)

  /** The calls one message makes: one per subscription, in subscription order. */
  function Notify(subscribers: seq<SubscriberId>, message: Message, topic: Topic): seq<Delivery>
  {
    if subscribers == [] then []
    else [Delivery(subscribers[0], message, topic)] + Notify(subscribers[1..], message, topic)
  }

  /** The calls a drain of `messages` makes, the oldest message first. */
  function FanOut(messages: seq<Message>, subscribers: seq<SubscriberId>, topic: Topic): seq<Delivery>
  {
    if messages == [] then []
    else Notify(subscribers, messages[0], topic) + FanOut(messages[1..], subscribers, topic)
  }

  /** What `topics[topic]` yields: an empty queue for a topic never used. */
  function QueueOf(topics: map<Topic, seq<Message>>, topic: Topic): seq<Message>
  {
    if topic in topics then topics[topic] else []
  }

  /** The callbacks of a topic; none when it has no entry. */
  function SubscribersOf(subscribers: map<Topic, seq<SubscriberId>>, topic: Topic): seq<SubscriberId>
  {
    if topic in subscribers then subscribers[topic] else []
  }

  /** A message reaches every subscription of its topic, the j-th call going
      to the j-th subscription, with the message and the topic. */
  lemma {:induction false} NotifyEach(subscribers: seq<SubscriberId>, message: Message, topic: Topic)
    ensures |Notify(subscribers, message, topic)| == |subscribers|
    ensures forall j :: 0 <= j < |subscribers| ==>
              Notify(subscribers, message, topic)[j] == Delivery(subscribers[j], message, topic)
    decreases |subscribers|
  {
    if subscribers != [] {
      NotifyEach(subscribers[1..], message, topic);
    }
  }

  lemma {:induction false} NotifyConcat(first: seq<SubscriberId>, second: seq<SubscriberId>, message: Message, topic: Topic)
    ensures Notify(first + second, message, topic) == Notify(first, message, topic) + Notify(second, message, topic)
    decreases |first|
  {
    if first != [] {
      assert (first + second)[1..] == first[1..] + second;
      NotifyConcat(first[1..], second, message, topic);
    } else {
      assert first + second == second;
    }
  }

  /** subscribe does not de-duplicate: a callback subscribed twice more is
      called twice more for every message. */
  lemma SubscribedTwiceNotifiedTwice(subscribers: seq<SubscriberId>, s: SubscriberId, message: Message, topic: Topic)
    ensures Notify(subscribers + [s] + [s], message, topic)
         == Notify(subscribers, message, topic) + [Delivery(s, message, topic), Delivery(s, message, topic)]
  {
    NotifyConcat(subscribers, [s], message, topic);
    NotifyConcat(subscribers + [s], [s], message, topic);
  }

  /** FIFO: draining earlier messages then later ones makes the earlier
      messages' calls first. */
  lemma {:induction false} FanOutConcat(earlier: seq<Message>, later: seq<Message>, subscribers: seq<SubscriberId>, topic: Topic)
    ensures FanOut(earlier + later, subscribers, topic) == FanOut(earlier, subscribers, topic) + FanOut(later, subscribers, topic)
    decreases |earlier|
  {
    if earlier != [] {
      assert (earlier + later)[1..] == earlier[1..] + later;
      FanOutConcat(earlier[1..], later, subscribers, topic);
    } else {
      assert earlier + later == later;
    }
  }

  /** A topic without subscribers drops its messages: draining makes no call. */
  lemma {:induction false} FanOutNoSubscribers(messages: seq<Message>, topic: Topic)
    ensures FanOut(messages, [], topic) == []
    decreases |messages|
  {
    if messages != [] {
      FanOutNoSubscribers(messages[1..], topic);
    }
  }

  class MessageQueue {
    var topics: map<Topic, seq<Message>>
    var subscribers: map<Topic, seq<SubscriberId>>
    /** Every callback call made so far, in the order made. */
    var deliveries: seq<Delivery>

    /** Every queue is empty: publish drains the queue it pushes onto. */
    ghost predicate Drained()
      reads this
    {
      forall t :: t in topics ==> topics[t] == []
    }

    constructor ()
      ensures Drained()
      ensures topics == map[] && subscribers == map[] && deliveries == []
    {
      topics, subscribers, deliveries := map[], map[], [];
    }

    /** Pushes the message and drains the topic: the message goes to every
        subscription of the topic, in order, and the queue is left empty.
        No other topic's queue or subscriptions change. */
    method Publish(topic: Topic, message: Message)
      requires Drained()
      modifies this
      ensures Drained()
      ensures topics == old(topics)[topic := []]
      ensures subscribers == old(subscribers)
      ensures deliveries == old(deliveries) + Notify(SubscribersOf(subscribers, topic), message, topic)
    {
      topics := topics[topic := QueueOf(topics, topic) + [message]];
      DeliverMessages(topic);
    }

    /** Appends the callback to the topic's list, duplicates included. */
    method Subscribe(topic: Topic, subscriber: SubscriberId)
      modifies this
      ensures subscribers == old(subscribers)[topic := SubscribersOf(old(subscribers), topic) + [subscriber]]
      ensures topics == old(topics) && deliveries == old(deliveries)
    {
      subscribers := subscribers[topic := SubscribersOf(subscribers, topic) + [subscriber]];
    }

    /** Pops the topic's messages oldest first and hands each to every
        subscription of the topic; the queue ends empty. */
    method DeliverMessages(topic: Topic)
      modifies this
      ensures topics == old(topics)[topic := []]
      ensures subscribers == old(subscribers)
      ensures deliveries == old(deliveries) + FanOut(QueueOf(old(topics), topic), SubscribersOf(subscribers, topic), topic)
    {
      ghost var callbacksOfTopic := SubscribersOf(subscribers, topic);
      topics := topics[topic := QueueOf(topics, topic)];
      while topics[topic] != []
        invariant topic in topics
        invariant topics == old(topics)[topic := topics[topic]]
        invariant subscribers == old(subscribers)
        invariant old(deliveries) + FanOut(QueueOf(old(topics), topic), callbacksOfTopic, topic)
               == deliveries + FanOut(topics[topic], callbacksOfTopic, topic)
        decreases |topics[topic]|
      {
        var message := topics[topic][0];
        topics := topics[topic := topics[topic][1..]];
        if topic in subscribers {
          CallEach(subscribers[topic], message, topic);
        }
      }
    }

    /** The inner loop of deliverMessages: one call per subscription, in
        subscription order. */
    method CallEach(callbacks: seq<SubscriberId>, message: Message, topic: Topic)
      modifies this`deliveries
      ensures deliveries == old(deliveries) + Notify(callbacks, message, topic)
    {
      for j := 0 to |callbacks|
        invariant deliveries + Notify(callbacks[j..], message, topic) == old(deliveries) + Notify(callbacks, message, topic)
      {
        assert callbacks[j..][1..] == callbacks[j + 1..];
        deliveries := deliveries + [Delivery(callbacks[j], message, topic)];
      }
      assert callbacks[|callbacks|..] == [];
    }
  }

  /** A run shaped like the main() of inmemoryqueue.cpp: two callbacks on topic1, one on topic2;
      each publish reaches exactly its own topic's callbacks, in order. */
  method DemoRun()
  {
    var queue := new MessageQueue();
    queue.Subscribe("topic1", 1);
    queue.Subscribe("topic2", 1);
    queue.Subscribe("topic1", 2);
    assert queue.subscribers["topic1"] == [1, 2];
    queue.Publish("topic1", "Message 1");
    NotifyEach([1, 2], "Message 1", "topic1");
    assert queue.deliveries == [Delivery(1, "Message 1", "topic1"), Delivery(2, "Message 1", "topic1")];
    queue.Publish("topic2", "Message 4");
    NotifyEach([1], "Message 4", "topic2");
    assert queue.deliveries == [Delivery(1, "Message 1", "topic1"), Delivery(2, "Message 1", "topic1"),
                                Delivery(1, "Message 4", "topic2")];
  }
}
