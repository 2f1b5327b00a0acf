/** Flow control (goTour/2_flow_control.go, whose `for_loops` is repeated
    verbatim in go_tour/2_flow_control.go): the two integer `for` loops,
    the three `switch` statements as functions of the values the program
    reads from its environment, and the stack of deferred calls. */
module FlowControl {
  import opened GoInt

  // ---------------------------------------------------------------------
  // for loops

  /** `sum := 0; for i := 0; i < n; i++ { sum += i }`: the sum of the
      integers below n. */
  method CountingLoop(n: int) returns (sum: int)
    ensures n >= 0 ==> 2 * sum == n * (n - 1)
    ensures n < 0 ==> sum == 0
  {
    sum := 0;
    var i := 0;
    while i < n
      invariant 0 <= i <= if n < 0 then 0 else n
      invariant 2 * sum == i * (i - 1)
    {
      sum := sum + i;
      i := i + 1;
    }
  }

  /** `sum = 1; for sum < limit { sum += sum }`: sum is doubled `rounds`
      times. Every value the condition tested before the last one was below
      the limit, so the result is the least power of two at or above it. */
  method DoublingLoop(limit: int) returns (sum: int, rounds: nat)
    ensures sum == Pow2(rounds) && sum >= limit
    ensures forall k :: 0 <= k < rounds ==> Pow2(k) < limit
  {
    sum, rounds := 1, 0;
    while sum < limit
      invariant sum == Pow2(rounds)
      invariant forall k :: 0 <= k < rounds ==> Pow2(k) < limit
      decreases limit - sum
    {
      sum := sum + sum;
      rounds := rounds + 1;
    }
  }

  /** 1024 is the only power of two that is at least 1000 while all smaller
      powers are below 1000, so the doubling loop of `for_loops` runs ten
      times. */
  lemma {:induction false} LeastPowerAtLeast1000(k: nat)
    requires Pow2(k) >= 1000
    requires forall j :: 0 <= j < k ==> Pow2(j) < 1000
    ensures k == 10 && Pow2(k) == 1024
  {
    assert Pow2(9) == 512 && Pow2(10) == 1024;
    if k < 10 {
      if k < 9 { Pow2StrictlyIncreasing(k, 9); }
      assert false;
    }
    assert Pow2(10) < 1000 || k <= 10;
  }

  /** `for_loops`: the first loop prints 45, the second 1024 after ten
      doublings. */
  method ForLoops() returns (first: int, second: int, doublings: nat)
    ensures first == 45 && second == 1024 && doublings == 10
  {
    first := CountingLoop(10);
    second, doublings := DoublingLoop(1000);
    LeastPowerAtLeast1000(doublings);
  }

  // ---------------------------------------------------------------------
  // switch statements

  /** What `switch os := runtime.GOOS; os` prints: darwin and linux have
      their own names, every other system is printed as it is. */
  function DescribeOs(os: string): (r: string)
    ensures |r| > 0 && r[|r| - 1] == '.'
    ensures os == "darwin" ==> r == "OS X."
    ensures os == "linux" ==> r == "Linux."
    ensures os != "darwin" && os != "linux" ==> r[..|r| - 1] == os
  {
    match os
    case "darwin" => "OS X."
    case "linux" => "Linux."
    case _ => os + "."
  }

  /** `time.Weekday`: Sunday is 0, Saturday is 6. */
  type Weekday = d: int | 0 <= d <= 6

  const Saturday: Weekday := 6

  /** `switch time.Saturday { case today: ... case today + 1: ... }`: the
      cases are compared in order and `today + k` does not wrap around the
      week, so the answer depends only on how many days Saturday is ahead. */
  function WhenIsSaturday(today: Weekday): (r: string)
    ensures r == "Today." <==> Saturday - today == 0
    ensures r == "Tomorrow." <==> Saturday - today == 1
    ensures r == "In two days." <==> Saturday - today == 2
    ensures r == "Too far away." <==> Saturday - today > 2
  {
    if Saturday == today then "Today."
    else if Saturday == today + 1 then "Tomorrow."
    else if Saturday == today + 2 then "In two days."
    else "Too far away."
  }

  /** The hours `time.Time.Hour` returns. */
  type Hour = h: int | 0 <= h < 24

  /** `switch { case t.Hour() < 12: ... case t.Hour() < 17: ... }`: the
      first case that holds wins, which splits the day into three
      intervals. */
  function Greeting(hour: Hour): (r: string)
    ensures r == "Good morning." <==> hour < 12
    ensures r == "Good afternoon." <==> 12 <= hour < 17
    ensures r == "Good evening." <==> 17 <= hour
  {
    if hour < 12 then "Good morning."
    else if hour < 17 then "Good afternoon."
    else "Good evening."
  }

  // ---------------------------------------------------------------------
  // defer

  /** One line printed by `fmt.Println`. */
  datatype Line = Text(s: string) | Number(n: int)

  /** Standard output: the lines printed so far. */
  class Console {
    var lines: seq<Line>

    constructor ()
      ensures lines == []
    {
      lines := [];
    }

    method Println(l: Line)
      modifies this
      ensures lines == old(lines) + [l]
    {
      lines := lines + [l];
    }
  }

  /** `s` backwards. */
  function Reverse<T>(s: seq<T>): (r: seq<T>)
    ensures |r| == |s|
    ensures forall i :: 0 <= i < |s| ==> r[i] == s[|s| - 1 - i]
  {
    if s == [] then [] else [s[|s| - 1]] + Reverse(s[..|s| - 1])
  }

  /** The deferred calls of one running function. A deferred
      `fmt.Println(arg)` has its argument evaluated when the `defer`
      statement runs, so a pending call is the line it will print. The
      last element of `pending` is the top of the stack. */
  class DeferStack {
    var pending: seq<Line>

    constructor ()
      ensures pending == []
    {
      pending := [];
    }

    /** `defer fmt.Println(arg)`. */
    method Defer(l: Line)
      modifies this
      ensures pending == old(pending) + [l]
    {
      pending := pending + [l];
    }

    /** The function returns: the deferred calls run last-in-first-out. */
    method RunDeferred(out: Console)
      modifies this, out
      ensures pending == []
      ensures out.lines == old(out.lines) + Reverse(old(pending))
    {
      while pending != []
        invariant out.lines + Reverse(pending) == old(out.lines) + Reverse(old(pending))
        decreases |pending|
      {
        ghost var before := pending;
        var top := pending[|pending| - 1];
        out.Println(top);
        pending := pending[..|pending| - 1];
        assert Reverse(before) == [top] + Reverse(pending);
      }
    }
  }

  /** The numbers n-1 down to 0, as `stack_defer` prints them. */
  function CountDown(n: nat): (r: seq<Line>)
    ensures |r| == n
    ensures forall k :: 0 <= k < n ==> r[k] == Number(n - 1 - k)
  {
    seq(n, k => Number(n - 1 - k))
  }

  /** `stack_defer`: prints "counting" and "done", then on return the ten
      deferred prints run in reverse order. */
  method StackDefer(out: Console)
    modifies out
    ensures out.lines == old(out.lines) + [Text("counting"), Text("done")] + CountDown(10)
  {
    var frame := new DeferStack();
    out.Println(Text("counting"));
    for i := 0 to 10
      invariant frame.pending == seq(i, k => Number(k))
      invariant out.lines == old(out.lines) + [Text("counting")]
    {
      frame.Defer(Number(i));
    }
    out.Println(Text("done"));
    ghost var stacked := frame.pending;
    frame.RunDeferred(out);
    assert Reverse(stacked) == CountDown(10);
  }

  /** `defer_statements`: "world" is deferred first, so it is printed after
      everything else, including all of the output of `stack_defer`. */
  method DeferStatements(out: Console)
    modifies out
    ensures out.lines == old(out.lines) + [Text("hello"), Text("counting"), Text("done")]
                         + CountDown(10) + [Text("world")]
  {
    var frame := new DeferStack();
    frame.Defer(Text("world"));
    out.Println(Text("hello"));
    StackDefer(out);
    frame.RunDeferred(out);
  }
}
