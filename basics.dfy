/** Packages, variables and functions (goTour/1_packages_vars_func.go):
    the package constants and the small integer and string functions. */
module Basics {
  import opened GoInt

  /** `Big = 1 << 100`: an untyped constant, exact at any size. */
  const Big: nat := Pow2(100)

  /** `Small = Big >> 99`. */
  const Small: nat := Shr(Big, 99)

  /** `MaxInt uint64 = 1<<64 - 1`. */
  const MaxInt: int := Pow2(64) - 1

  lemma SmallIsTwo()
    ensures Small == 2
  {
    ShrPow2(1, 99);
  }

  /** MaxInt is the largest value of its type `uint64`. */
  lemma MaxIntIsLargestUint64()
    ensures FitsUint64(MaxInt) && !FitsUint64(MaxInt + 1)
  {
    Pow2Of64();
  }

  /** `needInt(x int) int { return x*10 + 1 }`: its result is one past a
      multiple of ten, and dividing that multiple by ten gives x back. */
  function NeedInt(x: int): (r: int)
    ensures (r - 1) % 10 == 0 && (r - 1) / 10 == x
  {
    x * 10 + 1
  }

  /** `needInt(Small)` prints 21, and both the argument and the result fit
      in an `int`. */
  lemma NeedIntSmall()
    ensures FitsInt(Small) && NeedInt(Small) == 21 && FitsInt(NeedInt(Small))
  {
    SmallIsTwo();
  }

  /** `needInt(Big)` is rejected by Go: Big does not fit in an `int`, and
      neither would the result. */
  lemma NeedIntBigOverflows()
    ensures !FitsInt(Big) && NeedInt(Big) > MaxInt64
  {
    Pow2StrictlyIncreasing(64, 100);
    Pow2Of64();
  }

  /** `add(x, y int) int`: subtracting either argument from the result
      gives back the other. */
  function Add(x: int, y: int): (r: int)
    ensures r - y == x && r - x == y
  {
    x + y
  }

  /** `swap(x, y string) (string, string)`. */
  function Swap(x: string, y: string): (r: (string, string))
    ensures r.0 == y && r.1 == x
  {
    (y, x)
  }

  /** Swapping twice gives back the original pair. */
  lemma SwapTwice(x: string, y: string)
    ensures var (a, b) := Swap(x, y); Swap(a, b) == (x, y)
  {
  }

  /** `split(sum int) (x, y int)`: x is four ninths of sum, truncated
      toward zero as Go's `/` does, and y is the rest, so the two parts
      always add up to sum. */
  function Split(sum: int): (r: (int, int))
    ensures r.0 + r.1 == sum
    ensures Abs(sum * 4 - 9 * r.0) < 9
    ensures sum * 4 - 9 * r.0 == 0 || (sum < 0 <==> sum * 4 - 9 * r.0 < 0)
  {
    var x := Quot(sum * 4, 9);
    (x, sum - x)
  }

  /** The call `split(17)` in main prints `7 10`. */
  lemma SplitSeventeen()
    ensures Split(17) == (7, 10)
  {
    QuotUnique(68, 9, 7);
  }

  /** On a negative sum the truncating division rounds toward zero, not
      down: `split(-17)` is (-7, -10), where Euclidean division would give
      x = -8. */
  lemma SplitNegative()
    ensures Split(-17) == (-7, -10)
  {
    QuotUnique(-68, 9, -7);
  }
}
