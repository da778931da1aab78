/**
 The greedy batch-packing rule of the producer's send loop, as a function on
 the queue's contents, and what it guarantees: every message is sent once and
 in order, batches are never empty and never over capacity, each batch is as
 full as first-fit allows, and the "too large" failure names exactly the
 first message that cannot fit even in an empty batch.
 */
module Packing {
  import opened Messages

  /** How a send loop ends: every batch sent, or stopped at the message with
      the given 0-based index because it does not fit in an empty batch.
      `batches` lists the batches sent, in order, in both cases. */
  datatype Outcome =
    | Sent(batches: seq<seq<Message>>)
    | TooLarge(index: nat, batches: seq<seq<Message>>)
  {
    /** The same outcome, with `earlier` sent before it. */
    function Prepend(earlier: seq<seq<Message>>): Outcome {
      match this
      case Sent(bs) => Sent(earlier + bs)
      case TooLarge(i, bs) => TooLarge(i, earlier + bs)
    }
  }

  /** Every message fits on its own in an empty batch of size `capacity`. */
  ghost predicate AllFit(q: seq<Message>, capacity: nat) {
    forall i :: 0 <= i < |q| ==> Size(q[i]) <= capacity
  }

  /** Every batch holds at least one message and stays within capacity. */
  ghost predicate BatchesWithin(bs: seq<seq<Message>>, capacity: nat) {
    forall j :: 0 <= j < |bs| ==> bs[j] != [] && Total(bs[j]) <= capacity
  }

  /** Every batch after the first is non-empty, and its first message would
      have overflowed the batch before it. */
  ghost predicate BatchesMaximal(bs: seq<seq<Message>>, capacity: nat) {
    forall j :: 0 < j < |bs| ==> bs[j] != [] && Total(bs[j - 1]) + Size(bs[j][0]) > capacity
  }

  /** How many messages from the head of `q` go into a batch that has `room`
      space left: they are added in order while the next one fits. */
  function Fill(q: seq<Message>, room: nat): (k: nat)
    ensures k <= |q|
  {
    if q != [] && Size(q[0]) <= room then 1 + Fill(q[1..], room - Size(q[0])) else 0
  }

  /** Taking the message at position `n` into a batch with room for it: the
      batch holds one more message of the queue, and filling goes on from
      the next position with the room that is left. */
  lemma FillTakesNext(q: seq<Message>, n: nat, room: nat)
    requires n < |q| && Size(q[n]) <= room
    ensures Fill(q[n..], room) == 1 + Fill(q[n + 1..], room - Size(q[n]))
    ensures q[..n + 1] == q[..n] + [q[n]]
  {
    assert q[n..][1..] == q[n + 1..];
  }

  /** The send loop on queue `q`, `dequeued` messages having been taken off
      the queue before it: open an empty batch, fail if the head does not fit
      in it, otherwise fill the batch greedily, send it and go on. */
  function Pack(q: seq<Message>, capacity: nat, dequeued: nat): Outcome
    decreases |q|
  {
    if q == [] then
      Sent([])
    else
      var k := Fill(q, capacity);
      if k == 0 then TooLarge(dequeued, [])
      else Pack(q[k..], capacity, dequeued + k).Prepend([q[..k]])
  }

  /** What a greedily filled batch is: what it takes stays within the room,
      and it stops only at the end of the queue or at a message that would
      overflow it. */
  lemma {:induction false} FillFits(q: seq<Message>, room: nat)
    ensures var k := Fill(q, room);
      Total(q[..k]) <= room &&
      (k < |q| ==> Total(q[..k]) + Size(q[k]) > room)
  {
    var k := Fill(q, room);
    if q != [] && Size(q[0]) <= room {
      var r := q[1..];
      FillFits(r, room - Size(q[0]));
      assert q[..k][1..] == r[..k - 1];
      if k < |q| {
        assert q[k] == r[k - 1];
      }
    } else {
      assert q[..0] == [];
    }
  }

  /** A batch within capacity holds only messages that fit on their own. */
  lemma {:induction false} WithinCapacityAllFit(s: seq<Message>, capacity: nat)
    requires Total(s) <= capacity
    ensures AllFit(s, capacity)
  {
    if s != [] {
      WithinCapacityAllFit(s[1..], capacity);
      forall i | 0 < i < |s|
        ensures Size(s[i]) <= capacity
      {
        assert s[i] == s[1..][i - 1];
      }
    }
  }

  /** AllFit holds of a sequence exactly when it holds of both halves. */
  lemma AllFitSplit(q: seq<Message>, k: nat, capacity: nat)
    requires k <= |q|
    ensures AllFit(q, capacity) <==> AllFit(q[..k], capacity) && AllFit(q[k..], capacity)
  {
    if AllFit(q[..k], capacity) && AllFit(q[k..], capacity) {
      forall i | 0 <= i < |q|
        ensures Size(q[i]) <= capacity
      {
        if i < k { assert q[i] == q[..k][i]; } else { assert q[i] == q[k..][i - k]; }
      }
    }
  }

  /** The loop on a queue whose head fits: the greedy first batch, then the
      loop on what is left. */
  lemma PackUnfold(q: seq<Message>, capacity: nat, dequeued: nat)
    requires q != [] && Fill(q, capacity) > 0
    ensures var k := Fill(q, capacity);
      Pack(q, capacity, dequeued) == Pack(q[k..], capacity, dequeued + k).Prepend([q[..k]])
  {
  }

  /** A head that does not fit in an empty batch ends the loop at once, at
      its index, with nothing sent. */
  lemma PackHeadTooLarge(q: seq<Message>, capacity: nat, dequeued: nat)
    requires q != [] && Size(q[0]) > capacity
    ensures Pack(q, capacity, dequeued) == TooLarge(dequeued, [])
  {
  }

  /** If anything is sent, the first batch is the greedy prefix of the queue. */
  lemma PackFirstBatch(q: seq<Message>, capacity: nat, dequeued: nat)
    requires Pack(q, capacity, dequeued).batches != []
    ensures q != [] && Fill(q, capacity) > 0
    ensures Pack(q, capacity, dequeued).batches[0] == q[..Fill(q, capacity)]
  {
    PackUnfold(q, capacity, dequeued);
  }

  /** The loop succeeds exactly when every message fits on its own. */
  lemma {:induction false} PackSucceedsIffAllFit(q: seq<Message>, capacity: nat, dequeued: nat)
    ensures Pack(q, capacity, dequeued).Sent? <==> AllFit(q, capacity)
    decreases |q|
  {
    if q != [] {
      var k := Fill(q, capacity);
      if k > 0 {
        FillFits(q, capacity);
        PackUnfold(q, capacity, dequeued);
        PackSucceedsIffAllFit(q[k..], capacity, dequeued + k);
        WithinCapacityAllFit(q[..k], capacity);
        AllFitSplit(q, k, capacity);
      }
    }
  }

  /** On success the batches, concatenated, are the queue itself: each
      message sent exactly once, in order within and across batches. */
  lemma {:induction false} PackSentDeliversAll(q: seq<Message>, capacity: nat, dequeued: nat)
    requires Pack(q, capacity, dequeued).Sent?
    ensures Flatten(Pack(q, capacity, dequeued).batches) == q
    decreases |q|
  {
    if q != [] {
      var k := Fill(q, capacity);
      PackUnfold(q, capacity, dequeued);
      var rest := Pack(q[k..], capacity, dequeued + k).batches;
      PackSentDeliversAll(q[k..], capacity, dequeued + k);
      assert ([q[..k]] + rest)[1..] == rest;
      assert q[..k] + q[k..] == q;
    }
  }

  /** A batch being filled never reaches a message too big for its room. */
  lemma {:induction false} FillStopsBeforeOversized(q: seq<Message>, room: nat, i: nat)
    requires i < |q| && Size(q[i]) > room
    ensures Fill(q, room) <= i
  {
    if q != [] && Size(q[0]) <= room {
      assert q[1..][i - 1] == q[i];
      FillStopsBeforeOversized(q[1..], room - Size(q[0]), i - 1);
    }
  }

  /** When the first message that does not fit on its own is at position
      `i > 0`, the first batch stops at or before it, and in what is left
      that message is the first one that does not fit, `k` positions
      earlier. */
  lemma OversizedAfterBatch(q: seq<Message>, capacity: nat, i: nat)
    requires 0 < i < |q| && Size(q[i]) > capacity
    requires forall j :: 0 <= j < i ==> Size(q[j]) <= capacity
    ensures var k := Fill(q, capacity);
      0 < k <= i && Size(q[k..][i - k]) > capacity &&
      forall j :: 0 <= j < i - k ==> Size(q[k..][j]) <= capacity
  {
    var k := Fill(q, capacity);
    FillStopsBeforeOversized(q, capacity, i);
    assert q[k..][i - k] == q[i];
    forall j | 0 <= j < i - k
      ensures Size(q[k..][j]) <= capacity
    {
      assert q[k..][j] == q[k + j];
    }
  }

  /** A failure after the first batch: the loop on the whole queue fails at
      the same index, with the first batch sent ahead of the others. */
  lemma TooLargeAfterBatch(q: seq<Message>, capacity: nat, dequeued: nat, index: nat,
                           sentLater: seq<Message>)
    requires q != [] && Fill(q, capacity) > 0
    requires var k := Fill(q, capacity);
      var later := Pack(q[k..], capacity, dequeued + k);
      later.TooLarge? && later.index == index && Flatten(later.batches) == sentLater
    ensures var o := Pack(q, capacity, dequeued);
      o.TooLarge? && o.index == index && Flatten(o.batches) == q[..Fill(q, capacity)] + sentLater
  {
    var k := Fill(q, capacity);
    PackUnfold(q, capacity, dequeued);
    FlattenCons(q[..k], Pack(q[k..], capacity, dequeued + k).batches);
  }

  /** The first `i` messages are the first `k` followed by the first `i - k`
      of what is left after those. */
  lemma PrefixThroughRest(q: seq<Message>, k: nat, i: nat)
    requires k <= i <= |q|
    ensures q[..k] + q[k..][..i - k] == q[..i]
  {
  }

  /** The failure reports the 0-based index (counted from the start of the
      loop's input) of the first message that does not fit on its own, and
      the batches sent before it hold exactly the messages before it, in
      order: nothing at or after it is sent. */
  lemma {:induction false} PackFailsAtFirstOversized(q: seq<Message>, capacity: nat, dequeued: nat, i: nat)
    requires i < |q| && Size(q[i]) > capacity
    requires forall j :: 0 <= j < i ==> Size(q[j]) <= capacity
    ensures var o := Pack(q, capacity, dequeued);
      o.TooLarge? && o.index == dequeued + i && Flatten(o.batches) == q[..i]
    decreases |q|
  {
    if i == 0 {
      PackHeadTooLarge(q, capacity, dequeued);
      assert q[..0] == [];
    } else {
      var k := Fill(q, capacity);
      OversizedAfterBatch(q, capacity, i);
      PackFailsAtFirstOversized(q[k..], capacity, dequeued + k, i - k);
      TooLargeAfterBatch(q, capacity, dequeued, dequeued + i, q[k..][..i - k]);
      PrefixThroughRest(q, k, i);
    }
  }

  /** Every sent batch holds at least one message and stays within capacity. */
  lemma {:induction false} PackBatchesWithin(q: seq<Message>, capacity: nat, dequeued: nat)
    ensures BatchesWithin(Pack(q, capacity, dequeued).batches, capacity)
    decreases |q|
  {
    if q != [] {
      var k := Fill(q, capacity);
      if k > 0 {
        FillFits(q, capacity);
        PackUnfold(q, capacity, dequeued);
        PackBatchesWithin(q[k..], capacity, dequeued + k);
        var rest := Pack(q[k..], capacity, dequeued + k).batches;
        var bs := [q[..k]] + rest;
        forall j | 0 < j < |bs|
          ensures bs[j] != [] && Total(bs[j]) <= capacity
        {
          assert bs[j] == rest[j - 1];
        }
      }
    }
  }

  /** Greedy maximality: a batch is closed only because the next message,
      which opens the following batch, does not fit into it. */
  lemma {:induction false} PackBatchesMaximal(q: seq<Message>, capacity: nat, dequeued: nat)
    ensures BatchesMaximal(Pack(q, capacity, dequeued).batches, capacity)
    decreases |q|
  {
    if q != [] {
      var k := Fill(q, capacity);
      if k > 0 {
        PackUnfold(q, capacity, dequeued);
        var q' := q[k..];
        PackBatchesMaximal(q', capacity, dequeued + k);
        var rest := Pack(q', capacity, dequeued + k).batches;
        var bs := [q[..k]] + rest;
        forall j | 0 < j < |bs|
          ensures bs[j] != [] && Total(bs[j - 1]) + Size(bs[j][0]) > capacity
        {
          if j == 1 {
            // the next batch is the greedy prefix of what is left, headed by q[k]
            PackFirstBatch(q', capacity, dequeued + k);
            assert bs[1][0] == q'[0] == q[k];
            FillFits(q, capacity);
          } else {
            assert bs[j] == rest[j - 1] && bs[j - 1] == rest[j - 2];
          }
        }
      }
    }
  }

  /** A non-empty queue is sent as exactly one batch precisely when all of
      it fits in one batch. */
  lemma PackSingleBatch(q: seq<Message>, capacity: nat, dequeued: nat)
    ensures Pack(q, capacity, dequeued) == Sent([q]) <==> q != [] && Total(q) <= capacity
  {
    if q != [] && Total(q) <= capacity {
      FillFits(q, capacity);
      var k := Fill(q, capacity);
      if k < |q| {
        assert q[..k + 1] == q[..k] + [q[k]];
        TotalSnoc(q[..k], q[k]);
        TotalPrefix(q, k + 1);
      }
      assert q[..|q|] == q;
    }
    if Pack(q, capacity, dequeued) == Sent([q]) {
      PackBatchesWithin(q, capacity, dequeued);
      assert Pack(q, capacity, dequeued).batches[0] == q;
    }
  }
}
