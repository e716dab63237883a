/**
 * timeval_to_ns: the event timestamp (seconds, microseconds) as a nanosecond
 * count. Computed over mathematical integers: a signed 64-bit overflow of the
 * product is not modelled.
 */
module Time {

  const NSEC_PER_SEC: nat := 1_000_000_000
  const NSEC_PER_USEC: nat := 1000
  const USEC_PER_SEC: nat := 1_000_000

  /** A timeval whose microsecond part is in range, as the kernel delivers it. */
  predicate Normalized(usec: int)
  {
    0 <= usec < USEC_PER_SEC
  }

  /**
   * Nanoseconds since the epoch of (sec, usec). The result is always a whole
   * number of microseconds, and for a normalized timeval the seconds and the
   * microseconds can be read back from it.
   */
  function TimevalToNs(sec: int, usec: int): (ns: int)
    ensures ns % NSEC_PER_USEC == 0
    ensures Normalized(usec) ==> ns / NSEC_PER_SEC == sec
    ensures Normalized(usec) ==> (ns % NSEC_PER_SEC) / NSEC_PER_USEC == usec
  {
    sec * NSEC_PER_SEC + usec * NSEC_PER_USEC
  }

  /** The conversion preserves the chronological (lexicographic) order of normalized timevals, both ways. */
  lemma TimevalToNsOrder(sec1: int, usec1: int, sec2: int, usec2: int)
    requires Normalized(usec1) && Normalized(usec2)
    ensures TimevalToNs(sec1, usec1) < TimevalToNs(sec2, usec2) <==> sec1 < sec2 || (sec1 == sec2 && usec1 < usec2)
  {
  }

  /** Distinct normalized timevals get distinct nanosecond counts. */
  lemma TimevalToNsInjective(sec1: int, usec1: int, sec2: int, usec2: int)
    requires Normalized(usec1) && Normalized(usec2)
    ensures TimevalToNs(sec1, usec1) == TimevalToNs(sec2, usec2) <==> sec1 == sec2 && usec1 == usec2
  {
  }
}
