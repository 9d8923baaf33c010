/**
 * Conversions between second and millisecond quantities
 * (`packages/core/src/time.ts`). Both units are branded numbers in the
 * source; here they are distinct integer newtypes, so a `Seconds` cannot be
 * passed where `Milliseconds` is expected.
 */
module Time {

  newtype Milliseconds = int
  newtype Seconds = int

  /** `toMs(s)`: `s * 1000`. */
  function ToMs(s: Seconds): Milliseconds {
    (s as int * 1000) as Milliseconds
  }

  /** `toSec(m)`: `Math.floor(m / 1000)`; Dafny's `/` by a positive divisor already floors. */
  function ToSec(m: Milliseconds): Seconds {
    (m as int / 1000) as Seconds
  }

  /** Whole seconds survive a trip through milliseconds. */
  lemma SecondsRoundTrip(s: Seconds)
    ensures ToSec(ToMs(s)) == s
  {
  }

  /** `toSec` rounds down to the start of the second that contains `m`, negative `m` included. */
  lemma MillisecondsBracket(m: Milliseconds)
    ensures ToMs(ToSec(m)) <= m < ToMs(ToSec(m)) + 1000
  {
  }

  /** `toSec` is monotonic. */
  lemma ToSecMonotonic(m1: Milliseconds, m2: Milliseconds)
    requires m1 <= m2
    ensures ToSec(m1) <= ToSec(m2)
  {
    MillisecondsBracket(m1);
    MillisecondsBracket(m2);
  }
}
