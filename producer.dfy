/**
 The producer: it builds its queue of reservation messages, then sends the
 queue through the service-bus sender in greedily packed batches, failing on
 the first message that does not fit in an empty batch.
 */
module Producer {
  import opened Messages
  import opened ServiceBus
  import opened Packing

  /** The body of the one reservation message the producer publishes. */
  const ReservationBody: string := "{reservationid:1}"

  /** The queue of messages to publish: the single reservation message. */
  method CreateMessages() returns (messages: MessageQueue)
    ensures fresh(messages)
    ensures messages.items == [Message(ReservationBody)]
  {
    messages := new MessageQueue();
    messages.Enqueue(Message(ReservationBody));
  }

  /** The send loop over any queue: while messages remain, send the next
      batch, or stop with the head's 0-based index if even an empty batch
      cannot take it. The outcome is the one `Pack` describes; the sender
      receives exactly the batches the outcome lists. */
  method SendQueued(sender: Sender, messages: MessageQueue) returns (outcome: Outcome)
    modifies sender, messages
    ensures outcome == Pack(old(messages.items), sender.maxBatchSize, 0)
    ensures sender.sent == old(sender.sent) + outcome.batches
    ensures outcome.Sent? ==> messages.items == []
    ensures outcome.TooLarge? ==>
      outcome.index < |old(messages.items)| &&
      |messages.items| == |old(messages.items)| - outcome.index &&
      messages.items != [] && Size(messages.items[0]) > sender.maxBatchSize
  {
    ghost var q0 := messages.items;
    ghost var capacity := sender.maxBatchSize;
    ghost var target := Pack(q0, capacity, 0);
    var messageCount := messages.Count();
    var sentBatches: seq<seq<Message>> := [];
    // the messages still queued, and how many were dequeued before them
    ghost var pending, dequeued := q0, 0;
    while messages.Count() > 0
      invariant messages.items == pending
      invariant messageCount == |q0| == dequeued + |pending|
      invariant target == Pack(pending, capacity, dequeued).Prepend(sentBatches)
      invariant sender.sent == old(sender.sent) + sentBatches
      decreases |pending|
    {
      var batch := SendNextBatch(sender, messages);
      if batch == [] {
        PackHeadTooLarge(pending, capacity, dequeued);
        outcome := TooLarge(messageCount - messages.Count(), sentBatches);
        return;
      }
      BatchSent(target, pending, capacity, dequeued, sentBatches, batch);
      pending, dequeued := pending[|batch|..], dequeued + |batch|;
      sentBatches := sentBatches + [batch];
    }
    outcome := Sent(sentBatches);
  }

  /** After a round that sent `batch`, the outcome still to come is what
      `Pack` gives for the rest of the queue, after the batches sent so far
      and this one. */
  lemma BatchSent(target: Outcome, pending: seq<Message>, capacity: nat,
                  dequeued: nat, sentBatches: seq<seq<Message>>, batch: seq<Message>)
    requires pending != []
    requires target == Pack(pending, capacity, dequeued).Prepend(sentBatches)
    requires batch == (if Size(pending[0]) <= capacity then pending[..Fill(pending, capacity)] else [])
    requires batch != []
    ensures 0 < |batch| <= |pending|
    ensures target == Pack(pending[|batch|..], capacity, dequeued + |batch|)
                      .Prepend(sentBatches + [batch])
  {
    PackUnfold(pending, capacity, dequeued);
  }

  /** One round of the send loop: open an empty batch and put the head of the
      queue in it; if even that fails, stop without sending (the result is
      empty). Otherwise add following messages while they fit, send the
      batch, and return what it held: the greedy prefix `Fill` counts. */
  method SendNextBatch(sender: Sender, messages: MessageQueue) returns (sent: seq<Message>)
    requires messages.items != []
    modifies sender, messages
    ensures var q := old(messages.items);
      sent == (if Size(q[0]) <= sender.maxBatchSize then q[..Fill(q, sender.maxBatchSize)] else [])
    ensures messages.items == old(messages.items)[|sent|..]
    ensures sender.sent == old(sender.sent) + (if sent == [] then [] else [sent])
  {
    ghost var q := messages.items;
    var batch := sender.CreateMessageBatch();
    var added := batch.TryAddMessage(messages.Peek());
    if added {
      var _ := messages.Dequeue();
    } else {
      // the head is too large for any batch
      return [];
    }
    // the batch now holds the head; add as many of the following as fit
    ghost var taken := 1;
    var more := true;
    while more
      invariant batch.Valid() && batch.maxSizeInBytes == sender.maxBatchSize
      invariant taken <= |q| && messages.items == q[taken..]
      invariant batch.messages == q[..taken]
      invariant Fill(q, sender.maxBatchSize)
             == taken + Fill(messages.items, batch.maxSizeInBytes - batch.sizeInBytes)
      invariant !more ==> Fill(q, sender.maxBatchSize) == taken
      invariant sender.sent == old(sender.sent)
      decreases |messages.items|, more
    {
      if messages.Count() == 0 {
        more := false;
      } else {
        ghost var room := batch.maxSizeInBytes - batch.sizeInBytes;
        var fits := batch.TryAddMessage(messages.Peek());
        if fits {
          var _ := messages.Dequeue();
          FillTakesNext(q, taken, room);
          taken := taken + 1;
        } else {
          more := false;
        }
      }
    }
    sender.SendMessages(batch);
    sent := batch.messages;
  }

  /** What the producer's send step does: it creates its queue and sends it.
      The reservation message either goes out alone in one batch or, if an
      empty batch cannot hold it, is reported as message 0 and nothing is
      sent. */
  method SendMessages(sender: Sender) returns (outcome: Outcome)
    modifies sender
    ensures sender.sent == old(sender.sent) + outcome.batches
    ensures outcome == if Size(Message(ReservationBody)) <= sender.maxBatchSize
                       then Sent([[Message(ReservationBody)]])
                       else TooLarge(0, [])
  {
    var messages := CreateMessages();
    outcome := SendQueued(sender, messages);
    ReservationSentOrReported(sender.maxBatchSize);
  }

  /** The reservation queue is sent as one batch holding just the reservation
      when it fits, and is otherwise reported as message 0 with nothing sent. */
  lemma ReservationSentOrReported(capacity: nat)
    ensures Pack([Message(ReservationBody)], capacity, 0)
         == if Size(Message(ReservationBody)) <= capacity
            then Sent([[Message(ReservationBody)]])
            else TooLarge(0, [])
  {
    var q := [Message(ReservationBody)];
    if Size(q[0]) <= capacity {
      assert Total(q) == Size(q[0]) + Total(q[1..]);
      PackSingleBatch(q, capacity, 0);
    } else {
      PackHeadTooLarge(q, capacity, 0);
    }
  }
}
