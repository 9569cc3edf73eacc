/** The closable FIFO of StreamCollectorImpl: its abstract value and the class that updates it in place. */
module Channels {

  /** What a channel holds. T is a container of E in the library: a vector of metrics or a string. */
  datatype Chan<E> = Chan(queue: seq<seq<E>>, closed: bool)
  {
    /** The condition that ends the wait inside get. */
    predicate Ready() { closed || queue != [] }

    /** put on a channel that is still open; on a closed one put throws instead. */
    function Put(x: seq<E>): Chan<E> { this.(queue := queue + [x]) }

    /** What get appends. */
    function Front(): seq<E> { if queue == [] then [] else queue[0] }

    function Rest(): Chan<E> {
      if queue == [] then this else this.(queue := queue[1..])
    }

    function Close(): Chan<E> { this.(closed := true) }
  }

  /** Two puts and two gets, whatever else was queued: the oldest item always comes out first. */
  lemma FirstInFirstOut<E>(c: Chan<E>, x: seq<E>)
    ensures c.queue != [] ==> c.Put(x).queue[0] == c.queue[0] && c.Put(x).Rest() == c.Rest().Put(x)
    ensures c.queue == [] ==> c.Put(x).queue[0] == x && c.Put(x).Rest() == c
  {
    if c.queue != [] {
      assert (c.queue + [x])[1..] == c.queue[1..] + [x];
    } else {
      assert ([] + [x])[1..] == c.queue;
    }
  }

  /** A put and a close end the wait of get, and nothing else does: on an open, empty channel it goes on. */
  lemma WaitEnds<E>(c: Chan<E>, x: seq<E>)
    ensures c.Put(x).Ready() && c.Close().Ready()
    ensures !c.Ready() <==> c == Chan([], false)
  {
  }

  class StreamChannel<E> {
    var queue: seq<seq<E>>
    var closed: bool

    function Value(): Chan<E>
      reads this
    {
      Chan(queue, closed)
    }

    constructor ()
      ensures Value() == Chan([], false)
    {
      queue, closed := [], false;
    }

    method Close()
      modifies this
      ensures Value() == old(Value()).Close()
    {
      closed := true;
    }

    method IsClosed() returns (r: bool)
      ensures r == Value().closed
    {
      r := closed;
    }

    /** thrown stands for the std::logic_error of a put to a closed channel. */
    method Put(x: seq<E>) returns (thrown: bool)
      modifies this
      ensures thrown == old(closed)
      ensures Value() == if thrown then old(Value()) else old(Value()).Put(x)
    {
      if closed {
        return true;
      }
      queue := queue + [x];
      thrown := false;
    }

    /** `result` is the argument `out` with the dequeued container appended to it.
        A waiting call returns only once the channel is ready. */
    method Get(out: seq<E>, wait: bool) returns (ok: bool, result: seq<E>)
      requires wait ==> Value().Ready()
      modifies this
      ensures ok == (old(queue) != [])
      ensures result == if ok then out + old(queue)[0] else out
      ensures Value() == old(Value()).Rest()
      ensures wait && !ok ==> closed
    {
      if queue == [] {
        return false, out;
      }
      result := out + queue[0];
      queue := queue[1..];
      ok := true;
    }
  }
}
