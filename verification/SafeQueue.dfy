/** The queue with one lock in simple_queue.h and the pack builder in data_aggregator.h. Every operation of the queue
    holds the lock, so it is one step for the other threads; waiting for the queue to have something in it is a
    precondition. */
module SafeQueue {
  import opened Prelude

  class SafeQueue<T> {
    var q: seq<T>

    constructor ()
      ensures q == []
    {
      q := [];
    }

    method Enqueue(t: T)
      modifies this
      ensures q == old(q) + [t]
    {
      q := q + [t];
    }

    method EnqueueBulk(messages: array<T>, size: nat)
      requires size <= messages.Length
      modifies this
      ensures q == old(q) + messages[..size]
    {
      var i := 0;
      while i < size
        invariant i <= size && q == old(q) + messages[..i]
      {
        q := q + [messages[i]];
        i := i + 1;
      }
    }

    method WaitDequeueBulk(message: array<T>, capacity: nat) returns (size: nat)
      requires q != [] && capacity <= message.Length
      modifies this, message
      ensures size == Min(capacity, |old(q)|) && message[..size] + q == old(q)
      ensures message[size..] == old(message[size..])
    {
      size := 0;
      var i := 0;
      while i < capacity && q != []
        invariant i == size <= capacity && size + |q| == |old(q)|
        invariant message[..size] + q == old(q)
        invariant message[size..] == old(message[size..])
        decreases |q|
      {
        message[i] := q[0];
        assert message[..i + 1] + q[1..] == message[..i] + q;
        q := q[1..];
        size := size + 1;
        i := i + 1;
      }
    }
  }

  class DataAggregator<T> {
    const limit: nat
    var data: seq<T>

    constructor (packSize: nat)
      ensures data == [] && limit == packSize
    {
      limit, data := packSize, [];
    }

    method Append(t: T)
      modifies this
      ensures data == old(data) + [t]
    {
      data := data + [t];
    }

    predicate Ready()
      reads this
    {
      |data| >= limit
    }

    method MakeNewPack() returns (pack: seq<T>)
      modifies this
      ensures pack == old(data) && data == []
    {
      pack, data := data, [];
    }
  }
}
