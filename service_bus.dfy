/**
 The two service-bus client objects the producer drives: a message batch,
 which accepts a message only while the batch stays within its maximum size,
 and a sender, which hands out empty batches and records what it sends.
 Connections, authentication and the wire protocol are not modelled.
 */
module ServiceBus {
  import opened Messages

  /** A batch under construction (`ServiceBusMessageBatch`). */
  class MessageBatch {
    const maxSizeInBytes: nat
    var messages: seq<Message>
    var sizeInBytes: nat

    /** The batch knows its own size and never exceeds its maximum. */
    ghost predicate Valid()
      reads this
    {
      sizeInBytes == Total(messages) && sizeInBytes <= maxSizeInBytes
    }

    constructor (maxSizeInBytes: nat)
      ensures Valid()
      ensures this.maxSizeInBytes == maxSizeInBytes && messages == []
    {
      this.maxSizeInBytes := maxSizeInBytes;
      messages := [];
      sizeInBytes := 0;
    }

    /** Adds `m` if it still fits, and reports whether it did. */
    method TryAddMessage(m: Message) returns (added: bool)
      requires Valid()
      modifies this
      ensures Valid()
      ensures added <==> Total(old(messages)) + Size(m) <= maxSizeInBytes
      ensures messages == if added then old(messages) + [m] else old(messages)
      ensures sizeInBytes == if added then old(sizeInBytes) + Size(m) else old(sizeInBytes)
    {
      added := sizeInBytes + Size(m) <= maxSizeInBytes;
      if added {
        TotalSnoc(messages, m);
        messages := messages + [m];
        sizeInBytes := sizeInBytes + Size(m);
      }
    }
  }

  /** The sender (`ServiceBusSender`) bound to one queue. `sent` is the log of
      batches the service has received, oldest first. */
  class Sender {
    const maxBatchSize: nat
    ghost var sent: seq<seq<Message>>

    constructor (maxBatchSize: nat)
      ensures this.maxBatchSize == maxBatchSize && sent == []
    {
      this.maxBatchSize := maxBatchSize;
      sent := [];
    }

    /** A fresh, empty batch with the queue's maximum size. */
    method CreateMessageBatch() returns (batch: MessageBatch)
      ensures fresh(batch) && batch.Valid()
      ensures batch.messages == [] && batch.maxSizeInBytes == maxBatchSize
    {
      batch := new MessageBatch(maxBatchSize);
    }

    /** Delivers every message of the batch, as one unit. */
    method SendMessages(batch: MessageBatch)
      modifies this
      ensures sent == old(sent) + [batch.messages]
    {
      sent := sent + [batch.messages];
    }
  }
}
