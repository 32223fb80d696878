/** What gomp_loop_init stores for every schedule, and the loop that it stands for. */
module LoopInit {

  /** A loop without iterations ends where it starts. */
  function EndOf(start: int, end: int, incr: int): int {
    if (incr > 0 && start > end) || (incr < 0 && start < end) then start else end
  }

  function Later(x: int, incr: int, m: nat): int {
    x + m * incr
  }

  predicate Ahead(start: int, end: int, incr: int) {
    if incr > 0 then start < end else start > end
  }

  /** The loop from start to end in steps of incr, in either direction, goes through x. */
  ghost predicate Takes(start: int, end: int, incr: int, x: int) {
    exists m: nat :: x == Later(start, incr, m) && Ahead(x, end, incr)
  }
}
