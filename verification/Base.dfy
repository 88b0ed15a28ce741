/** Types and arithmetic shared by every component. */
module Base {

  datatype Option<+T> = None | Some(value: T)

  function Min(a: int, b: int): int {
    if a <= b then a else b
  }

  function Max(a: int, b: int): int {
    if a <= b then b else a
  }

  /** The largest value of an unsigned 64-bit integer. */
  const U64_MAX: nat := 0xFFFF_FFFF_FFFF_FFFF

  /** `Instant::elapsed` / `saturating_duration_since`: time moving backwards counts as none. */
  function Elapsed(now: int, since: int): nat {
    if since <= now then now - since else 0
  }

  const NANOS_PER_SEC: nat := 1_000_000_000

  lemma {:induction false} SubsetSize<T>(a: set<T>, b: set<T>)
    requires a <= b
    ensures |a| <= |b|
  {
    assert b == a + (b - a);
  }
}
