/** Machine words of the daemon: 64-bit counters and millisecond clocks, and bytes. */
module Words {

  const TWO_TO_THE_64: int := 0x1_0000_0000_0000_0000

  type U64 = x: int | 0 <= x < TWO_TO_THE_64
  type Byte = x: int | 0 <= x < 256

  /** `x++` on a uint64_t. */
  function Inc64(x: U64): U64 {
    (x + 1) % TWO_TO_THE_64
  }

  /** `a - b` on uint64_t operands: wraps when `b` is ahead of `a`. */
  function Sub64(a: U64, b: U64): U64 {
    (a - b) % TWO_TO_THE_64
  }

  datatype Option<+T> = None | Some(value: T)

  /** No element occurs at two positions. */
  ghost predicate Distinct<T>(s: seq<T>) {
    forall j, k | 0 <= j < k < |s| :: s[j] != s[k]
  }
}
