/**
 Messages as the producer sees them, and the in-memory FIFO queue
 (`Queue<ServiceBusMessage>` in the producer) that holds them until they are
 packed into batches.
 */
module Messages {

  /** A service-bus message: an opaque text body. */
  datatype Message = Message(body: string)

  /** The space a message takes in a batch. The service's own size accounting
      (the encoded message) is not visible to the producer; the body length
      stands in for it, and every property of the packing loop is proved for
      every batch capacity. */
  function Size(m: Message): nat {
    |m.body|
  }

  /** The space a sequence of messages takes in a batch. */
  function Total(s: seq<Message>): nat {
    if s == [] then 0 else Size(s[0]) + Total(s[1..])
  }

  /** Total is additive over concatenation. */
  lemma {:induction false} TotalAppend(a: seq<Message>, b: seq<Message>)
    ensures Total(a + b) == Total(a) + Total(b)
  {
    if a == [] {
      assert a + b == b;
    } else {
      assert (a + b)[1..] == a[1..] + b;
      TotalAppend(a[1..], b);
    }
  }

  /** Adding one message to a batch adds exactly its size. */
  lemma TotalSnoc(s: seq<Message>, m: Message)
    ensures Total(s + [m]) == Total(s) + Size(m)
  {
    TotalAppend(s, [m]);
    assert Total([m]) == Size(m) + Total([]);
  }

  /** A prefix never takes more space than the whole sequence. */
  lemma TotalPrefix(s: seq<Message>, j: nat)
    requires j <= |s|
    ensures Total(s[..j]) <= Total(s)
  {
    assert s == s[..j] + s[j..];
    TotalAppend(s[..j], s[j..]);
  }

  /** The messages of a list of batches, in order. */
  function Flatten(batches: seq<seq<Message>>): seq<Message> {
    if batches == [] then [] else batches[0] + Flatten(batches[1..])
  }

  /** Flattening a batch followed by more batches. */
  lemma FlattenCons(b: seq<Message>, bs: seq<seq<Message>>)
    ensures Flatten([b] + bs) == b + Flatten(bs)
  {
    assert ([b] + bs)[1..] == bs;
  }

  /** The FIFO queue of messages waiting to be sent; `items[0]` is the head. */
  class MessageQueue {
    var items: seq<Message>

    constructor ()
      ensures items == []
    {
      items := [];
    }

    method Enqueue(m: Message)
      modifies this
      ensures items == old(items) + [m]
    {
      items := items + [m];
    }

    function Count(): nat
      reads this
    {
      |items|
    }

    function Peek(): Message
      reads this
      requires items != []
    {
      items[0]
    }

    method Dequeue() returns (m: Message)
      requires items != []
      modifies this
      ensures m == old(items)[0] && items == old(items)[1..]
    {
      m := items[0];
      items := items[1..];
    }
  }
}
