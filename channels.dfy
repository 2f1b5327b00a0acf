/** A Go `chan int`, run one goroutine at a time. As in Go's runtime, a
    channel holds a buffer of at most `capacity` values and a queue of
    senders parked because the buffer was full (for an unbuffered channel,
    every sender parks until a receiver takes its value). The values in
    flight, in send order, are the buffer followed by the parked values. */
module Channels {

  /** What `c <- x` does: the value is buffered and the sender carries on;
      or the sender parks until a receiver takes the value; or the channel
      is closed and the send panics. */
  datatype SendResult = Buffered | Parked | SendPanic

  /** What `v, ok := <-c` does: a value is received; or the channel is
      closed and drained (`ok` is false); or nothing can be received yet
      and the receiving goroutine blocks. */
  datatype RecvResult = Received(value: int) | Drained | Blocked

  class Channel {
    const capacity: nat
    var buf: seq<int>
    var sendq: seq<int>
    var closed: bool

    /** The buffer never holds more than the capacity; a sender parks only
        when the buffer is full; closing releases the parked senders. */
    ghost predicate Valid()
      reads this
    {
      && |buf| <= capacity
      && (sendq != [] ==> |buf| == capacity)
      && (closed ==> sendq == [])
    }

    /** The values sent and not yet received, oldest first. */
    function Contents(): seq<int>
      reads this
    {
      buf + sendq
    }

    /** `make(chan int, capacity)`. */
    constructor (capacity: nat)
      ensures Valid() && this.capacity == capacity
      ensures buf == [] && sendq == [] && !closed
    {
      this.capacity := capacity;
      buf, sendq, closed := [], [], false;
    }

    /** `len(c)`: the number of buffered values, always 0 for an
        unbuffered channel. */
    function Len(): (n: nat)
      reads this
      requires Valid()
      ensures n <= capacity
    {
      |buf|
    }

    /** `c <- x`. */
    method Send(x: int) returns (r: SendResult)
      requires Valid()
      modifies this
      ensures Valid() && closed == old(closed)
      ensures r == if old(closed) then SendPanic
                   else if old(|buf|) < capacity then Buffered
                   else Parked
      ensures Contents() == if old(closed) then old(Contents()) else old(Contents()) + [x]
      ensures r == Buffered ==> buf == old(buf) + [x] && sendq == old(sendq)
    {
      if closed {
        r := SendPanic;
      } else if |buf| < capacity {
        buf := buf + [x];
        r := Buffered;
      } else {
        sendq := sendq + [x];
        r := Parked;
      }
    }

    /** `v, ok := <-c`: takes the oldest value in flight. When it comes from
        the buffer, the oldest parked sender moves its value into the freed
        slot and carries on. */
    method Recv() returns (r: RecvResult)
      requires Valid()
      modifies this
      ensures Valid() && closed == old(closed)
      ensures old(Contents()) != [] ==>
                r == Received(old(Contents())[0]) && Contents() == old(Contents())[1..]
      ensures old(Contents()) == [] ==>
                Contents() == [] && r == if closed then Drained else Blocked
    {
      if buf != [] {
        r := Received(buf[0]);
        if sendq != [] {
          buf := buf[1..] + [sendq[0]];
          sendq := sendq[1..];
        } else {
          buf := buf[1..];
        }
      } else if sendq != [] {
        r := Received(sendq[0]);
        sendq := sendq[1..];
      } else if closed {
        r := Drained;
      } else {
        r := Blocked;
      }
    }

    /** `close(c)`: false when the channel was already closed, which
        panics. Buffered values can still be received afterwards. */
    method Close() returns (ok: bool)
      requires Valid()
      modifies this
      ensures Valid() && closed
      ensures ok == !old(closed)
      ensures buf == old(buf) && sendq == []
    {
      ok := !closed;
      closed := true;
      sendq := [];
    }
  }
}
