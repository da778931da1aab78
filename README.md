# Service Bus reservation producer: batch packing and sending

This project models the producer of the reservation system: an HTTP-triggered
function that publishes reservation messages to an Azure Service Bus queue.
Two copies of the producer exist with the same sending logic:
`backend-azure-serverless-functions/backend-azure-serverless-functions/Producer.cs`
and `src/azure-serverless-ABS-Producer-Consumer/Producer.cs`. In the second copy
every line of the core is one line further down.

The core has two operations:

- `CreateMessages` builds a FIFO queue that holds the single message
  `{reservationid:1}`.
- `SendMessages` drains that queue through the sender in batches. Each round
  opens an empty batch and adds the head of the queue. If even an empty batch
  refuses the head, the loop fails with "message N is too large". Otherwise it
  keeps adding and dequeuing messages while the batch accepts them, sends the
  batch, and repeats until the queue is empty.

The model has four modules, one file each:

- `messages.dfy` (`Messages`): a message and the space it takes (`Size`,
  `Total`), and the in-memory queue as a class (`MessageQueue`: `Enqueue`,
  `Peek`, `Dequeue`, `Count`).
- `service_bus.dfy` (`ServiceBus`): the two client objects.
  - `MessageBatch` has a maximum size. Its `TryAddMessage` accepts a message
    exactly when the batch stays within that size.
  - `Sender` hands out empty batches. It keeps a log (`sent`) of every batch
    the service has received.
- `packing.dfy` (`Packing`): the packing rule as functions on the queue's
  contents, and the lemmas about it.
  - `Fill` is how many messages from the head go into a batch.
  - `Pack` is the whole loop. Its result is an `Outcome`:
    `Sent(batches)`, or `TooLarge(index, batches)` with the batches sent before
    the failure.
- `producer.dfy` (`Producer`): the producer itself, as imperative code over the
  queue and the client objects.
  - `CreateMessages` and `SendMessages` model the two source operations.
  - `SendQueued` is the send loop for any queue. `SendNextBatch` is one round
    of it.
  - `CreateMessages` is proved to return the one-reservation queue.
    `SendNextBatch` is proved to send and dequeue exactly the greedy prefix
    `Fill` counts, or nothing when an empty batch refuses the head.
    `SendQueued` is proved to end in exactly the outcome `Pack` gives for its
    queue. `SendMessages` is proved to end in a closed-form outcome for the
    one-reservation queue, through `ReservationSentOrReported`.
  - The packing properties are proved about `Fill` and `Pack`.

The "too large" exception becomes the `TooLarge` outcome. Its number is the
one the code computes, `messageCount - messages.Count`. That is the number of
messages already dequeued, i.e. the 0-based index of the offending message in
the original queue. A single oversized message is therefore reported as
message 0 (`messageCount - messages.Count` at Producer.cs:95).

## Model

| member | source | states |
|---|---|---|
| Producer.CreateMessages | src/azure-serverless-ABS-Producer-Consumer/Producer.cs:65-71 | the new queue holds exactly one message, whose body is `{reservationid:1}` |
| Producer.SendMessages | backend-azure-serverless-functions/backend-azure-serverless-functions/Producer.cs:72-112 | the reservation goes out alone in a single batch when an empty batch can hold it; otherwise message 0 is reported too large and nothing is sent; the sender receives exactly the batches the outcome lists |
| Producer.SendQueued | backend-azure-serverless-functions/backend-azure-serverless-functions/Producer.cs:78-109 | the send loop ends in exactly the outcome `Pack` gives for the queue; the sender receives exactly those batches, in order; on success the queue is empty; on failure the index is within the queue, as many messages are still queued as there are from that index on, and the head still queued is one no batch can hold |
| Producer.SendNextBatch | backend-azure-serverless-functions/backend-azure-serverless-functions/Producer.cs:84-106 | one round sends nothing and leaves the queue alone if the head does not fit in an empty batch; otherwise it sends and dequeues exactly the greedy prefix `Fill` counts |
| Producer.ReservationSentOrReported | backend-azure-serverless-functions/backend-azure-serverless-functions/Producer.cs:64-112 | `Pack` on the one-reservation queue is a single one-message batch when it fits, and failure at index 0 with no batch otherwise |
| Messages.MessageQueue.Enqueue | backend-azure-serverless-functions/backend-azure-serverless-functions/Producer.cs:68 | the message is appended at the tail |
| Messages.MessageQueue.Dequeue | backend-azure-serverless-functions/backend-azure-serverless-functions/Producer.cs:90 | the head is removed and returned; the rest keep their order |
| ServiceBus.MessageBatch.TryAddMessage | backend-azure-serverless-functions/backend-azure-serverless-functions/Producer.cs:87 | the message is added if and only if the batch's total size stays within its maximum; if it is refused, the batch is unchanged; the batch's recorded size is always its true total |
| ServiceBus.Sender.CreateMessageBatch | backend-azure-serverless-functions/backend-azure-serverless-functions/Producer.cs:84 | a fresh batch, empty, whose maximum is the queue's batch size |
| ServiceBus.Sender.SendMessages | backend-azure-serverless-functions/backend-azure-serverless-functions/Producer.cs:106 | the whole batch is delivered as one unit, after everything sent before |
| Packing.FillFits | backend-azure-serverless-functions/backend-azure-serverless-functions/Producer.cs:99-103 | a greedily filled batch stays within its room, and stops only at the end of the queue or at a message that would overflow it |
| Packing.FillStopsBeforeOversized | backend-azure-serverless-functions/backend-azure-serverless-functions/Producer.cs:99-103 | filling never takes a message too big for the room, nor anything after it |
| Packing.PackHeadTooLarge | backend-azure-serverless-functions/backend-azure-serverless-functions/Producer.cs:87-96 | a head too large for an empty batch stops the loop at once, at the head's index, with nothing sent |
| Packing.PackFirstBatch | backend-azure-serverless-functions/backend-azure-serverless-functions/Producer.cs:84-103 | if anything is sent, the first batch is the greedy prefix of the queue |
| Packing.PackSucceedsIffAllFit | backend-azure-serverless-functions/backend-azure-serverless-functions/Producer.cs:81-109 | the loop succeeds if and only if every message fits on its own in an empty batch |
| Packing.PackSentDeliversAll | backend-azure-serverless-functions/backend-azure-serverless-functions/Producer.cs:81-109 | on success the sent batches, concatenated, are exactly the queue: every message is sent once, in order |
| Packing.PackFailsAtFirstOversized | backend-azure-serverless-functions/backend-azure-serverless-functions/Producer.cs:92-96 | the loop fails with the 0-based index of the first message that does not fit on its own; the batches sent before hold exactly the messages before it, in order, and nothing at or after it is sent |
| Packing.PackBatchesWithin | backend-azure-serverless-functions/backend-azure-serverless-functions/Producer.cs:84-106 | every batch sent is non-empty and within the batch size |
| Packing.PackBatchesMaximal | backend-azure-serverless-functions/backend-azure-serverless-functions/Producer.cs:99-103 | a batch is closed only because the message that opens the next batch would have overflowed it |
| Packing.PackSingleBatch | src/azure-serverless-ABS-Producer-Consumer/Producer.cs:82-110 | the loop sends exactly one batch holding the whole queue if and only if the queue is non-empty and fits in one batch |

## Left out

- `Run`, the HTTP trigger, is not modelled. Neither are the construction of
  the client and sender, their disposal in the `finally` block, or the
  disposal of each batch by `using`.
- Logging is not modelled (the "Creating reservation", "Press any key" and
  "Sent a batch of N messages" lines).
- The connection string, the queue name and the settings object are not
  modelled. `Startup.cs` is not part of this model.
- `async`/`await` is left out: the model runs each awaited call to
  completion, in order.
- The exception is the `TooLarge` outcome. Its number is modelled, but not its
  message text or the way it propagates to the caller.
- Failures of the service itself are not modelled: `CreateMessageBatchAsync`
  or `SendMessagesAsync` throwing, timeouts, lost connections.
- ServiceBus.MessageBatch.TryAddMessage: the service's own size accounting
  (encoded message size and per-message overhead) is not visible here, so a
  message takes the length of its body. Every property is proved for every
  batch capacity.
- ServiceBus.Sender.SendMessages: the service's queue is modelled only as the
  log of batches received (`sent`). Consumers and message settlement are not
  modelled.
- Queue counts are unbounded integers. The C# `int` count is not modelled.
- Producer.SendQueued: on failure the contract gives how many messages are
  still queued, and that the one at their head is too large. It does not give
  their exact contents. The source drops the queue when it throws.
