/** Concurrency (goTour/5_concurrency.go), run one goroutine at a time:
    the scheduler's choices are parameters, channels are Channels.Channel
    objects, and `select` is driven by a sequence of readiness events. */
module Concurrency {
  import opened Channels

  // ---------------------------------------------------------------------
  // sum and channels

  /** The sum of the elements of s. */
  function Total(s: seq<int>): int {
    if s == [] then 0 else Total(s[..|s| - 1]) + s[|s| - 1]
  }

  /** Summing the two halves of a split and adding the partial sums gives
      the sum of the whole, wherever the split is. */
  lemma {:induction false} TotalSplit(s: seq<int>, m: nat)
    requires m <= |s|
    ensures Total(s[..m]) + Total(s[m..]) == Total(s)
  {
    if m < |s| {
      var init := s[..|s| - 1];
      TotalSplit(init, m);
      assert init[..m] == s[..m];
      assert s[m..][..|s[m..]| - 1] == init[m..];
    } else {
      assert s[..m] == s;
    }
  }

  /** The loop of `sum`: `for _, v := range s { sum += v }`. */
  method Accumulate(s: seq<int>) returns (sum: int)
    ensures sum == Total(s)
  {
    sum := 0;
    for i := 0 to |s|
      invariant sum == Total(s[..i])
    {
      assert s[..i + 1][..i] == s[..i];
      sum := sum + s[i];
    }
    assert s[..|s|] == s;
  }

  /** `sum(s, c)`: sends exactly one value on c, the sum of s. */
  method Sum(s: seq<int>, c: Channel) returns (r: SendResult)
    requires c.Valid()
    modifies c
    ensures c.Valid() && c.closed == old(c.closed)
    ensures r == SendPanic <==> old(c.closed)
    ensures c.Contents() == if old(c.closed) then old(c.Contents())
                            else old(c.Contents()) + [Total(s)]
  {
    var sum := Accumulate(s);
    r := c.Send(sum);
  }

  /** The two workers of `channels` as written: the second one is given
      `s[len(c)/2:]`, and `len(c)` of the unbuffered channel is 0, so it
      sums the whole slice. `firstWorkerFirst` is the scheduler's choice of
      the worker that reaches its send first; `x, y := <-c, <-c` receives
      in that order. The total counts the first half twice. */
  method TwoWorkerSum(s: seq<int>, firstWorkerFirst: bool) returns (x: int, y: int)
    ensures var lower, whole := Total(s[..|s| / 2]), Total(s);
            (x, y) == if firstWorkerFirst then (lower, whole) else (whole, lower)
    ensures x + y == Total(s) + Total(s[..|s| / 2])
  {
    var c := new Channel(0);
    var lower := s[..|s| / 2];
    var upper := s[c.Len() / 2..];
    assert upper == s;
    if firstWorkerFirst {
      var _ := Sum(lower, c);
      var _ := Sum(upper, c);
    } else {
      var _ := Sum(upper, c);
      var _ := Sum(lower, c);
    }
    var rx := c.Recv();
    var ry := c.Recv();
    x, y := rx.value, ry.value;
  }

  /** The two workers as the comment above them intends, the second one
      given `s[len(s)/2:]`: in either arrival order the partial sums add up
      to the sum of the whole slice. */
  method TwoWorkerSumIntended(s: seq<int>, firstWorkerFirst: bool) returns (x: int, y: int)
    ensures var lower, upper := Total(s[..|s| / 2]), Total(s[|s| / 2..]);
            (x, y) == if firstWorkerFirst then (lower, upper) else (upper, lower)
    ensures x + y == Total(s)
  {
    var c := new Channel(0);
    var lower := s[..|s| / 2];
    var upper := s[|s| / 2..];
    if firstWorkerFirst {
      var _ := Sum(lower, c);
      var _ := Sum(upper, c);
    } else {
      var _ := Sum(upper, c);
      var _ := Sum(lower, c);
    }
    var rx := c.Recv();
    var ry := c.Recv();
    x, y := rx.value, ry.value;
    TotalSplit(s, |s| / 2);
  }

  /** The slice of `channels`: its halves sum to 17 and -5, the whole to 12,
      so the program as written prints 29 as the total where 12 is meant. */
  lemma ChannelsSliceSums()
    ensures var s := [7, 2, 8, -9, 4, 0];
            Total(s[..3]) == 17 && Total(s[3..]) == -5 && Total(s) == 12
            && Total(s) + Total(s[..3]) == 29
  {
    var s := [7, 2, 8, -9, 4, 0];
    assert s[..3] == [7, 2, 8];
    assert s[3..] == [-9, 4, 0];
    assert Total([7]) == 7 by { assert [7][..0] == []; }
    assert Total([7, 2]) == 9 by { assert [7, 2][..1] == [7]; }
    assert Total([7, 2, 8]) == 17 by { assert [7, 2, 8][..2] == [7, 2]; }
    assert Total([-9]) == -9 by { assert [-9][..0] == []; }
    assert Total([-9, 4]) == -5 by { assert [-9, 4][..1] == [-9]; }
    assert Total([-9, 4, 0]) == -5 by { assert [-9, 4, 0][..2] == [-9, 4]; }
    TotalSplit(s, 3);
  }

  /** `channels`: the unbuffered exchange prints 17 and 12 in the order
      the workers arrive, and 29; then two values sent into a buffered
      channel of capacity 2 come out in the order they went in. */
  method ChannelsDemo(firstWorkerFirst: bool) returns (x: int, y: int, first: int, second: int)
    ensures (x, y) == if firstWorkerFirst then (17, 12) else (12, 17)
    ensures x + y == 29
    ensures first == 1 && second == 2
  {
    var s := [7, 2, 8, -9, 4, 0];
    ChannelsSliceSums();
    assert s[..|s| / 2] == s[..3];
    x, y := TwoWorkerSum(s, firstWorkerFirst);

    var ch := new Channel(2);
    var _ := ch.Send(1);
    var _ := ch.Send(2);
    var r1 := ch.Recv();
    var r2 := ch.Recv();
    first, second := r1.value, r2.value;
  }

  /** The two deadlocks the comments of `channels` describe, on a buffered
      channel of capacity 2: a third send into the full buffer cannot
      complete, and a receive from the emptied buffer cannot complete. */
  method BufferedChannelLimits() returns (thirdSend: SendResult, thirdRecv: RecvResult)
    ensures thirdSend == Parked && thirdRecv == Blocked
  {
    var ch := new Channel(2);
    var _ := ch.Send(1);
    var _ := ch.Send(2);
    thirdSend := ch.Send(3);

    var ch2 := new Channel(2);
    var _ := ch2.Send(1);
    var _ := ch2.Send(2);
    var _ := ch2.Recv();
    var _ := ch2.Recv();
    thirdRecv := ch2.Recv();
  }

  // ---------------------------------------------------------------------
  // fibonacci, range and close

  function Fib(n: nat): nat {
    if n < 2 then n else Fib(n - 2) + Fib(n - 1)
  }

  /** The first n Fibonacci numbers. */
  function FibPrefix(n: nat): (r: seq<int>)
    ensures |r| == n && forall i :: 0 <= i < n ==> r[i] == Fib(i)
  {
    seq(n, i requires 0 <= i => Fib(i))
  }

  lemma FirstTenFibonacci()
    ensures FibPrefix(10) == [0, 1, 1, 2, 3, 5, 8, 13, 21, 34]
  {
    assert Fib(2) == 1;
    assert Fib(3) == 2;
    assert Fib(4) == 3;
    assert Fib(5) == 5;
    assert Fib(6) == 8;
    assert Fib(7) == 13;
    assert Fib(8) == 21;
    assert Fib(9) == 34;
    assert FibPrefix(10)[..] == [0, 1, 1, 2, 3, 5, 8, 13, 21, 34];
  }

  /** How a goroutine's run ended: it returned; or it is parked on a send
      that waits for a receiver; or it panicked. */
  datatype Outcome = Finished | Suspended | Panicked

  /** `fibonacci(n, c)`: sends the first n Fibonacci numbers, then closes c.
      Once the buffer is full the goroutine parks on its next send (that
      value is then in flight) and does not reach the close. A channel that
      is already closed makes the first send, or the close, panic. */
  method Fibonacci(n: int, c: Channel) returns (out: Outcome)
    requires c.Valid()
    modifies c
    ensures c.Valid()
    ensures old(c.closed) ==> out == Panicked && c.closed && c.Contents() == old(c.Contents())
    ensures !old(c.closed) && n <= c.capacity - old(|c.buf|) ==>
              out == Finished && c.closed
              && c.buf == old(c.buf) + FibPrefix(if n < 0 then 0 else n)
    ensures !old(c.closed) && n > c.capacity - old(|c.buf|) ==>
              out == Suspended && !c.closed
              && c.Contents() == old(c.Contents()) + FibPrefix(c.capacity - old(|c.buf|) + 1)
  {
    var x, y := 0, 1;
    var i := 0;
    while i < n
      invariant c.Valid() && c.closed == old(c.closed)
      invariant 0 <= i <= if n < 0 then 0 else n
      invariant x == Fib(i) && y == Fib(i + 1)
      invariant old(c.closed) ==> i == 0 && c.Contents() == old(c.Contents())
      invariant !old(c.closed) ==>
                  i <= c.capacity - old(|c.buf|)
                  && c.buf == old(c.buf) + FibPrefix(i) && c.sendq == old(c.sendq)
    {
      var r := c.Send(x);
      if r == SendPanic {
        return Panicked;
      } else if r == Parked {
        assert FibPrefix(i + 1) == FibPrefix(i) + [Fib(i)];
        return Suspended;
      }
      assert FibPrefix(i + 1) == FibPrefix(i) + [Fib(i)];
      x, y := y, x + y;
      i := i + 1;
    }
    var ok := c.Close();
    out := if ok then Finished else Panicked;
  }

  /** `rangeClose`: `fibonacci(cap(c), c)` fills the buffer of capacity 10
      exactly and closes it, and `for i := range c` receives the ten values
      in order and stops at the close. */
  method RangeClose() returns (received: seq<int>)
    ensures received == [0, 1, 1, 2, 3, 5, 8, 13, 21, 34]
  {
    var c := new Channel(10);
    var producer := Fibonacci(c.capacity, c);
    assert producer == Finished;
    received := [];
    while true
      invariant c.Valid() && c.closed && c.capacity == 10
      invariant received + c.Contents() == FibPrefix(10)
      decreases |c.Contents()|
    {
      var r := c.Recv();
      if !r.Received? {
        break;
      }
      received := received + [r.value];
    }
    FirstTenFibonacci();
  }

  // ---------------------------------------------------------------------
  // select

  /** Which case of the `select` in `fibonacciSelect` is ready: a receiver
      waits on c, or a value has been sent on quit. */
  datatype Ready = ReceiverReady | QuitReady

  /** The position of the first quit event at or after `from`, or the
      length if there is none. */
  function FirstQuit(events: seq<Ready>, from: nat := 0): (k: nat)
    requires from <= |events|
    ensures from <= k <= |events|
    ensures forall i :: from <= i < k ==> events[i] == ReceiverReady
    ensures k < |events| ==> events[k] == QuitReady
    decreases |events| - from
  {
    if from == |events| then from
    else if events[from].QuitReady? then from
    else FirstQuit(events, from + 1)
  }

  /** `fibonacciSelect(c, quit)`, with the ready case of each round given by
      events: every round in which a receiver is ready hands it the current
      x and advances (x, y); the first quit returns, and nothing more is sent.
      Without a quit the goroutine is left waiting in the select. */
  method FibonacciSelect(events: seq<Ready>) returns (sent: seq<int>, quit: bool)
    ensures quit <==> QuitReady in events
    ensures sent == FibPrefix(FirstQuit(events))
  {
    var x, y := 0, 1;
    sent, quit := [], false;
    var i := 0;
    while i < |events|
      invariant 0 <= i <= |events|
      invariant forall j :: 0 <= j < i ==> events[j] == ReceiverReady
      invariant x == Fib(i) && y == Fib(i + 1) && sent == FibPrefix(i)
    {
      if events[i] == QuitReady {
        quit := true;
        return;
      }
      assert FibPrefix(i + 1) == FibPrefix(i) + [Fib(i)];
      sent := sent + [x];
      x, y := y, x + y;
      i := i + 1;
    }
  }

  /** `someFunc(c, quit)` as the select sees it: ten receives on c, then a
      send on quit. */
  method SomeFunc() returns (events: seq<Ready>)
    ensures |events| == 11 && events[10] == QuitReady
    ensures forall i :: 0 <= i < 10 ==> events[i] == ReceiverReady
  {
    events := [];
    for i := 0 to 10
      invariant |events| == i
      invariant forall j :: 0 <= j < i ==> events[j] == ReceiverReady
    {
      events := events + [ReceiverReady];
    }
    events := events + [QuitReady];
  }

  /** The first half of `selectConcurrent`: someFunc prints exactly the
      first ten Fibonacci numbers, then fibonacciSelect quits. */
  method SelectConcurrent() returns (printed: seq<int>, quit: bool)
    ensures printed == [0, 1, 1, 2, 3, 5, 8, 13, 21, 34] && quit
  {
    var events := SomeFunc();
    assert FirstQuit(events) == 10;
    printed, quit := FibonacciSelect(events);
    FirstTenFibonacci();
  }

  // ---------------------------------------------------------------------
  // SafeCounter

  /** `m[key]`: Go's map index gives the zero value for a missing key. */
  function Get(m: map<string, int>, key: string): int {
    if key in m then m[key] else 0
  }

  /** The counts after `Inc` has been called once for each element of keys,
      in that order. */
  function IncAll(m: map<string, int>, keys: seq<string>): map<string, int>
    decreases |keys|
  {
    if keys == [] then m else IncAll(m[keys[0] := Get(m, keys[0]) + 1], keys[1..])
  }

  /** Each key's count goes up by the number of increments issued for it,
      and a key is present once it has been incremented. */
  lemma {:induction false} IncAllCounts(m: map<string, int>, keys: seq<string>, k: string)
    ensures Get(IncAll(m, keys), k) == Get(m, k) + multiset(keys)[k]
    ensures k in IncAll(m, keys) <==> k in m || k in keys
    decreases |keys|
  {
    if keys != [] {
      IncAllCounts(m[keys[0] := Get(m, keys[0]) + 1], keys[1..], k);
      assert keys == [keys[0]] + keys[1..];
      assert multiset(keys) == multiset{keys[0]} + multiset(keys[1..]);
    }
  }

  /** The order in which the goroutines get the lock does not matter: any
      two orderings of the same increments give the same counts. */
  lemma IncOrderIrrelevant(m: map<string, int>, a: seq<string>, b: seq<string>)
    requires multiset(a) == multiset(b)
    ensures IncAll(m, a) == IncAll(m, b)
  {
    var ma, mb := IncAll(m, a), IncAll(m, b);
    forall k
      ensures (k in ma <==> k in mb) && (k in ma ==> ma[k] == mb[k])
    {
      IncAllCounts(m, a, k);
      IncAllCounts(m, b, k);
      assert k in a <==> multiset(a)[k] > 0;
      assert k in b <==> multiset(b)[k] > 0;
    }
    assert ma.Keys == mb.Keys;
  }

  /** `SafeCounter`: the counts, without the mutex that serialises access. */
  class SafeCounter {
    var v: map<string, int>

    /** `SafeCounter{v: make(map[string]int)}`. */
    constructor ()
      ensures v == map[]
    {
      v := map[];
    }

    /** `c.v[key]++`: a missing key counts as 0; no other key changes. */
    method Inc(key: string)
      modifies this
      ensures key in v && v[key] == Get(old(v), key) + 1
      ensures forall k :: k != key ==> Get(v, k) == Get(old(v), k) && (k in v <==> k in old(v))
      ensures v == IncAll(old(v), [key])
    {
      v := v[key := Get(v, key) + 1];
    }

    /** `return c.v[key]`: 0 for a missing key; the map is only read. */
    method Value(key: string) returns (n: int)
      ensures key in v ==> n == v[key]
      ensures key !in v ==> n == 0
    {
      n := if key in v then v[key] else 0;
    }

    /** Concurrent `Inc` calls, admitted by the lock one at a time in the
        order keys lists them. */
    method IncInOrder(keys: seq<string>)
      modifies this
      ensures v == IncAll(old(v), keys)
    {
      for i := 0 to |keys|
        invariant IncAll(v, keys[i..]) == IncAll(old(v), keys)
      {
        assert keys[i..][1..] == keys[i + 1..];
        Inc(keys[i]);
      }
    }
  }

  /** A thousand copies of one key. */
  function Repeat(key: string, n: nat): (r: seq<string>)
    ensures |r| == n && multiset(r)[key] == n
  {
    if n == 0 then [] else Repeat(key, n - 1) + [key]
  }

  /** `syncMutex` once every goroutine has run: in whatever order the lock
      admitted the thousand `Inc("somekey")` calls, `Value` reads 1000, and
      a second read agrees with the first. */
  method SyncMutex(order: seq<string>) returns (first: int, second: int)
    requires multiset(order) == multiset(Repeat("somekey", 1000))
    ensures first == 1000 && second == first
  {
    var c := new SafeCounter();
    c.IncInOrder(order);
    IncAllCounts(map[], order, "somekey");
    first := c.Value("somekey");
    second := c.Value("somekey");
  }
}
