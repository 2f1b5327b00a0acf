# A verified model of the Go tour exercises

This project models the integer, slice and channel logic of a repository of
Go tour exercises. The model is written in Dafny, and every result below is
proved by the Dafny verifier.

- **Go integers** (`go_int.dfy`): the 64-bit bounds, powers of two, the
  shift `>>` on untyped constants, and Go's `/`, which truncates toward
  zero. Dafny's own `/` is Euclidean, so truncating division is defined
  separately (`GoInt.Quot`).
- **Packages, variables and functions** (`basics.dfy`): `add`, `swap`,
  `split` and `needInt`, and the constants `Big`, `Small` and `MaxInt`.
- **Flow control** (`flow_control.dfy`):
  - the two integer `for` loops, which are the same in both flow-control
    files;
  - the three `switch` statements, as functions of the operating-system
    name, the weekday and the hour;
  - the defer stack, as a class whose deferred calls run last-in-first-out
    when the function returns.
- **Channels** (`channels.dfy`): a `chan int` as a class holding a buffer
  of at most `capacity` values and a queue of senders parked on a full
  buffer, as in Go's runtime.
  - A send on a closed channel, and a close of a closed channel, report the
    panic as a result.
  - A receive that cannot proceed reports that the goroutine blocks.
- **Concurrency** (`concurrency.dfy`): `sum`, `channels`, `fibonacci`,
  `rangeClose`, `fibonacciSelect`, `someFunc`, `selectConcurrent` and
  `SafeCounter`. Goroutines run one at a time: the scheduler's choices
  (which worker sends first, the order in which the lock admits the
  `Inc` calls) are parameters, and `select` is driven by a sequence of
  readiness events.
- **Slices** (`slices.dfy`):
  - A slice is a header: a reference to a backing `array`, an offset and a
    length. Its capacity runs to the end of the array.
  - Reslicing, element stores, `make` and `append` follow Go's length and
    capacity rules.
  - Every slice made from another shares its backing array, so a write
    through one is seen through all that overlap it.
- **Pointers, structs and slices** (`more_types.dfy`): `pointers`,
  `structs` and the `Vertex` literals, `slices`, `sliceLenCap`,
  `makeDynamicSlice`, `sliceOfSlices`, `sliceAppend` and the in-place `pow`
  loop. Each demo returns the values it prints and, where it updates an
  array in place, that array's final contents.

The slice header is a `datatype`, not a class. In Go a slice is a value:
assigning one copies its header, and only the backing array is shared.

## Model

| member | source | states |
|---|---|---|
| GoInt.Quot | goTour/1_packages_vars_func.go:48 | Go's `/`: the remainder is smaller than the divisor in magnitude and, when non-zero, has the sign of the dividend (truncation toward zero) |
| GoInt.QuotUnique | goTour/1_packages_vars_func.go:48 | any quotient with such a remainder is the truncated quotient, which fixes `split`'s results on concrete inputs |
| GoInt.ShrPow2 | goTour/1_packages_vars_func.go:18-20 | shifting `1 << (k+n)` right by n places gives `1 << k` |
| GoInt.Pow2StrictlyIncreasing | goTour/1_packages_vars_func.go:18 | `1 << a` is below `1 << b` whenever a < b |
| GoInt.ShlOneWraps | go_tour/3_structs_slices_maps.go:128 | `1 << uint(i)` on a 64-bit `int` is 2^i reduced by two's complement into the `int` range: 2^i below 63, the most negative `int` at 63, and 0 from 64 on |
| Basics.SmallIsTwo | goTour/1_packages_vars_func.go:15-21 | `Small = (1 << 100) >> 99` equals 2 |
| Basics.MaxIntIsLargestUint64 | goTour/1_packages_vars_func.go:32 | `MaxInt = 1<<64 - 1` fits in `uint64` and is its largest value |
| Basics.NeedInt | goTour/1_packages_vars_func.go:23 | `needInt(x)` is one past a multiple of ten, and that multiple divided by ten is x |
| Basics.NeedIntSmall | goTour/1_packages_vars_func.go:98 | `needInt(Small)` is 21, and both argument and result fit in an `int` |
| Basics.NeedIntBigOverflows | goTour/1_packages_vars_func.go:101-102 | `Big` does not fit in an `int`, and `needInt(Big)` exceeds the largest `int` |
| Basics.Add | goTour/1_packages_vars_func.go:37-39 | subtracting either argument from `add(x, y)` gives back the other |
| Basics.Swap | goTour/1_packages_vars_func.go:42-44 | `swap(x, y)` returns y first and x second |
| Basics.SwapTwice | goTour/1_packages_vars_func.go:42-44 | swapping twice gives back the original pair |
| Basics.Split | goTour/1_packages_vars_func.go:47-51 | `x + y == sum`, where x is `sum*4/9` truncated toward zero |
| Basics.SplitSeventeen | goTour/1_packages_vars_func.go:73 | `split(17)` is (7, 10) |
| Basics.SplitNegative | goTour/1_packages_vars_func.go:48 | `split(-17)` is (-7, -10), so the division truncates rather than floors |
| FlowControl.CountingLoop | goTour/2_flow_control.go:15-18 | the loop sums the integers below n: `2*sum == n*(n-1)`, and 0 when n is not positive |
| FlowControl.DoublingLoop | go_tour/2_flow_control.go:18-21 | sum stays a power of two `1 << rounds`, ends at or above the limit, and every earlier value tested was below it (the same loop as goTour/2_flow_control.go:22-25) |
| FlowControl.LeastPowerAtLeast1000 | goTour/2_flow_control.go:22-26 | the only such exit for limit 1000 is after ten doublings, at 1024 |
| FlowControl.ForLoops | goTour/2_flow_control.go:13-26 | `for_loops` prints 45 and then 1024, after exactly ten doublings (go_tour/2_flow_control.go:9-22 is the same function) |
| FlowControl.DescribeOs | goTour/2_flow_control.go:92-102 | "darwin" prints "OS X.", "linux" prints "Linux.", and any other name is printed followed by "." |
| FlowControl.WhenIsSaturday | goTour/2_flow_control.go:106-118 | each answer holds exactly when Saturday is 0, 1, 2 or more than 2 days ahead of today, without wrapping around the week |
| FlowControl.Greeting | goTour/2_flow_control.go:121-129 | morning exactly before 12, afternoon exactly from 12 to before 17, evening exactly from 17 |
| FlowControl.Reverse | goTour/2_flow_control.go:146-147 | element i of the reversal is element `len-1-i` of the input |
| FlowControl.DeferStack.Defer | goTour/2_flow_control.go:139 | `defer fmt.Println(arg)` pushes the call with its argument already evaluated on top of the pending calls, which are otherwise unchanged (also line 152) |
| FlowControl.DeferStack.RunDeferred | goTour/2_flow_control.go:146-147 | on return, the pending calls print in last-in-first-out order and the stack is left empty |
| FlowControl.StackDefer | goTour/2_flow_control.go:148-155 | `stack_defer` prints "counting", then "done", then 9 down to 0, with the arguments captured when each `defer` ran |
| FlowControl.DeferStatements | goTour/2_flow_control.go:133-144 | "hello", then all of `stack_defer`'s output, then "world" last |
| Channels.Channel.constructor | goTour/5_concurrency.go:49 | `make(chan int, n)` (also line 71) is an open, empty channel of capacity n; `make(chan int)` (line 39) is the same with capacity 0; the unbuffered channels of lines 104-105 are replaced by `FibonacciSelect`'s event sequence |
| Channels.Channel.Len | goTour/5_concurrency.go:42 | `len(c)` is the number of buffered values, never more than the capacity (0 for an unbuffered channel) |
| Channels.Channel.Send | goTour/5_concurrency.go:30 | a send on an open channel adds its value after all values in flight (buffered if there is room, else parked); on a closed channel it panics and changes nothing |
| Channels.Channel.Recv | goTour/5_concurrency.go:44 | a receive takes the oldest value in flight; with none it reports drained if closed and blocked otherwise |
| Channels.Channel.Close | goTour/5_concurrency.go:64 | `close` marks the channel closed, keeps the buffered values, and panics if it was already closed |
| Concurrency.TotalSplit | goTour/5_concurrency.go:40-42 | for any split index m, `sum(s[:m]) + sum(s[m:]) == sum(s)` |
| Concurrency.Accumulate | goTour/5_concurrency.go:26-29 | the range loop of `sum` computes the sum of every element |
| Concurrency.Sum | goTour/5_concurrency.go:25-31 | `sum(s, c)` sends exactly one value on c, the sum of s, unless c is closed |
| Concurrency.TwoWorkerSum | goTour/5_concurrency.go:35-45 | as written, the second worker sums the whole slice, so `x + y` counts the first half twice; the arrival order decides which of x and y is which |
| Concurrency.TwoWorkerSumIntended | goTour/5_concurrency.go:40-45 | with the split at `len(s)/2`, the two partial sums add up to the sum of the slice in either arrival order |
| Concurrency.ChannelsSliceSums | goTour/5_concurrency.go:36 | the halves of [7 2 8 -9 4 0] sum to 17 and -5 and the whole to 12, so the program as written totals 29 |
| Concurrency.ChannelsDemo | goTour/5_concurrency.go:35-55 | `channels` receives 17 and 12 in arrival order and totals 29; the buffered channel gives back 1 and then 2 |
| Concurrency.BufferedChannelLimits | goTour/5_concurrency.go:48-52 | on a channel of capacity 2, a third send into the full buffer parks, and a receive from the emptied buffer blocks |
| Concurrency.FibPrefix | goTour/5_concurrency.go:58-63 | element i of the values sent is the i-th Fibonacci number |
| Concurrency.FirstTenFibonacci | goTour/5_concurrency.go:72-75 | the first ten Fibonacci numbers are 0 1 1 2 3 5 8 13 21 34 |
| Concurrency.Fibonacci | goTour/5_concurrency.go:58-65 | with room in the buffer, sends the first n Fibonacci numbers in order and closes c; otherwise parks on the first send that does not fit, with that value in flight; this model does not resume it; on a closed channel it panics |
| Concurrency.RangeClose | goTour/5_concurrency.go:70-75 | `range c` receives exactly the ten values 0 1 1 2 3 5 8 13 21 34, in order, and stops at the close |
| Concurrency.FirstQuit | goTour/5_concurrency.go:82-89 | the first quit event: every earlier event is a ready receiver |
| Concurrency.FibonacciSelect | goTour/5_concurrency.go:80-91 | each ready receiver gets the current x as (x, y) advances, so the values sent are the Fibonacci numbers before the first quit; it returns exactly when a quit arrives |
| Concurrency.SomeFunc | goTour/5_concurrency.go:94-99 | ten receives on c, then a send on quit |
| Concurrency.SelectConcurrent | goTour/5_concurrency.go:102-113 | someFunc prints exactly the first ten Fibonacci numbers, and then fibonacciSelect quits |
| Concurrency.IncAllCounts | goTour/5_concurrency.go:139-143 | after a series of `Inc` calls, each key's count has grown by the number of increments for that key (a missing key counts as 0) |
| Concurrency.IncOrderIrrelevant | goTour/5_concurrency.go:153-157 | any two orders of the same increments give the same map |
| Concurrency.SafeCounter.Inc | goTour/5_concurrency.go:139-143 | `c.v[key]++` raises key's count by exactly 1 from 0 when it is missing, and leaves every other key as it was |
| Concurrency.SafeCounter.Value | goTour/5_concurrency.go:146-150 | `c.v[key]`, or 0 when the key is missing, and the map is left unchanged |
| Concurrency.SafeCounter.IncInOrder | goTour/5_concurrency.go:155-157 | Inc calls admitted one at a time give the counts of the whole series |
| Concurrency.Repeat | goTour/5_concurrency.go:155-156 | the thousand `Inc("somekey")` calls hold that key exactly n times |
| Concurrency.SyncMutex | goTour/5_concurrency.go:153-161 | in any admission order of the thousand increments, `Value("somekey")` reads 1000, and two reads agree |
| Slices.Reslice | go_tour/3_structs_slices_maps.go:166-174 | `s[lo:hi]` is legal exactly when `0 <= lo <= hi <= cap(s)`; it shares s's array, with length hi-lo and capacity cap(s)-lo |
| Slices.ResliceElems | go_tour/3_structs_slices_maps.go:74 | `s[lo:hi]` within len(s) holds elements lo to hi-1 of s |
| Slices.SliceExpr | go_tour/3_structs_slices_maps.go:97-104 | a missing low bound is 0 and a missing high bound is `len(s)`; with those bounds the expression is legal, and shaped, exactly as `s[lo:hi]`; `s[:]` is s |
| Slices.DefaultBounds | go_tour/3_structs_slices_maps.go:97-104 | `s[0:len(s)]`, `s[:len(s)]`, `s[0:]` and `s[:]` are all s |
| Slices.Store | go_tour/3_structs_slices_maps.go:90 | `s[i] = x` writes exactly one element of the backing array when `0 <= i < len(s)`, and otherwise panics without writing |
| Slices.StoreSeenThroughOverlap | go_tour/3_structs_slices_maps.go:86-91 | after the write, every slice over the same array shows x at the overlapping position and its old elements elsewhere |
| Slices.Make | go_tour/3_structs_slices_maps.go:183-186 | `make([]int, n, c)` gives a fresh zeroed array with length n and capacity c, and panics exactly when n is negative or above c |
| Slices.Append | go_tour/3_structs_slices_maps.go:220-235 | the result holds the old elements followed by the new ones; with room it writes in place and keeps the rest of the array, otherwise it copies into a new array and leaves the old one unchanged |
| MoreTypes.Pointers | go_tour/3_structs_slices_maps.go:25-38 | `*p = 21` sets i and leaves j; after `p = &j`, `*p = *p / 37` sets j to 73 and leaves i at 21 |
| MoreTypes.Structs | go_tour/3_structs_slices_maps.go:17-55 | `v.X = 4` and then `p.Y = 1e9` through `p := &v` leave v as {4 1000000000}; `Vertex{X: 1}` is {1 0}, `Vertex{}` is {0 0}, and `*px` is {1 2} |
| MoreTypes.SlicesDemo | go_tour/3_structs_slices_maps.go:72-104 | prints [3 5 7] for `primes[1:4]`, then names as declared; writing b[0] shows as a[1] and in the final names[1] and changes nothing else; the four full-slice forms agree |
| MoreTypes.PowLoop | go_tour/3_structs_slices_maps.go:127-129 | every `pow[i]` becomes `1 << i` as a 64-bit `int` computes it, in place |
| MoreTypes.PowDemo | go_tour/3_structs_slices_maps.go:119-129 | the range loops print each index i with 2^i and then the elements [1 2 4 8 16 32 64 128]; the in-place loop leaves the array as it was |
| MoreTypes.SliceLenCap | go_tour/3_structs_slices_maps.go:160-178 | lengths and capacities (6,6), (0,6), (4,6) and (4,4) with their elements, then s unchanged as [2 3 5 7 11 13] |
| MoreTypes.MakeDynamicSlice | go_tour/3_structs_slices_maps.go:182-196 | a (5,5) of zeros, b (0,5), c (2,5), and d (3,3), because d starts two elements into the 5-element array |
| MoreTypes.SliceOfSlices | go_tour/3_structs_slices_maps.go:199-212 | the five moves set exactly the five cells they name; every other cell stays "_" |
| MoreTypes.SliceAppend | go_tour/3_structs_slices_maps.go:222-237 | `append` takes the nil slice to [0 1] and then to [0 1 2 3 4], and the length never exceeds the capacity |

## Left out

- Floating point: `needFloat`, `Pi` and the complex values in
  goTour/1_packages_vars_func.go, and `Sqrt`, `sqrt`, `pow` and `if_else`
  in both flow-control files. The `float64` demos of
  goTour/4_methods_inferfaces.go and the GUI gallery in fyneTour/tour.go
  are not part of this model.
- Console output: demos return the values they would print. `main`,
  `printSlice` and `printSlice2` only format output.
- `arrays` and `sliceLiterals` only build and print literal values.
- Environment inputs become parameters: `runtime.GOOS` for
  `FlowControl.DescribeOs`, and `time.Now().Weekday()` and `Hour()` for
  `FlowControl.WhenIsSaturday` and `FlowControl.Greeting`. `rand` and
  `time.Now` in `main` are dropped.
- Real concurrency is not modelled.
  - Goroutines run one at a time, to completion or to a blocking send, and
    a producer runs before its consumer. The scheduler's choices are
    parameters (`firstWorkerFirst`, the admission order of `SyncMutex`).
  - The `select` fairness rule is replaced by an event sequence.
  - The mutex of `SafeCounter` (Lock, Unlock, `defer Unlock`) is dropped,
    because its effect is that the calls are serialised.
  - `say` and `goroutines` (`time.Sleep`), the `time.Tick`/`time.After`
    loop of `selectConcurrent`, and the racy first read in `syncMutex`
    (`Concurrency.SyncMutex` reads only after all increments) are left out.
- Channels.Channel.Close: the senders still parked when a channel closes
  would panic in Go. The model drops their values instead.
- The `board` of `sliceOfSlices` is three separate row arrays. The outer
  slice of rows is never written, so it is modelled as three slice
  variables, one per row.
- Slices.Append: the capacity of a grown array is a parameter. Go's
  growth rule and size-class rounding are not modelled.
- Slices.Make: with constant arguments, a length above the capacity is
  rejected by the Go compiler. The model reports it as the run-time panic
  that non-constant arguments cause.
- Nil versus empty slice: `var s []int` is a slice of an empty array, and
  prints the same.
- Basics.Add: does not model 64-bit wrap-around, because Go's `int` is
  modelled as an unbounded integer. `GoInt.FitsInt` states the bound where
  the program's own constants reach it.
- Basics.Split: does not model wrap-around of `sum*4` for sums beyond a
  quarter of the `int` range.
- Basics.NeedInt: does not model wrap-around of `x*10 + 1` for large x.
- Concurrency.Accumulate: does not model wrap-around of the running sum.
- FlowControl.CountingLoop: does not model wrap-around of the sum for very
  large n.
- Concurrency.Fibonacci: does not model wrap-around of x and y beyond the
  92nd Fibonacci number.
- Concurrency.Fibonacci: when n exceeds the free room in the buffer, the
  run is modelled only up to the first send that parks. In Go the goroutine
  resumes once a receiver takes values, sends the rest of the n values and
  closes the channel; interleaving it with a receiver is not modelled. The
  one call site (`rangeClose`, n = cap(c) on an empty channel) never parks.

## Findings

| source | as written | input that shows it | evidently intended | confidence | as-written member | corrected member |
|---|---|---|---|---|---|---|
| goTour/5_concurrency.go:42 | the second worker gets `s[len(c)/2:]`, and `len(c)` of the unbuffered channel is 0, so it sums the whole slice | s = [7 2 8 -9 4 0]: the workers send 17 and 12, and `x+y` prints 29 | `s[len(s)/2:]`: the workers send 17 and -5, and `x+y` is 12, the sum of s | high (not executed) | Concurrency.TwoWorkerSum | Concurrency.TwoWorkerSumIntended |
