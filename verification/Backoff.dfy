/** How long `do` waits between two attempts (internal/client/client.go). Durations are nanoseconds. */
module Backoff {
  import opened Wrappers
  import Numerals
  import Text

  const SECOND := 1_000_000_000
  const BASE := 200_000_000
  const MAX_WAIT := 5 * SECOND
  const RETRY_BUDGET := 45 * SECOND
  const MAX_ATTEMPTS := 50

  /** Two's complement truncation to int64, which is what a Go multiplication of Durations does. */
  function Wrap64(x: int): (r: int)
    ensures Numerals.IsInt64(r)
    ensures Numerals.IsInt64(x) ==> r == x
    ensures (x - r) % 0x1_0000_0000_0000_0000 == 0
  {
    var m := x % 0x1_0000_0000_0000_0000;
    if m > Numerals.INT64_MAX then m - 0x1_0000_0000_0000_0000 else m
  }

  /** The Retry-After seconds that the client honours: a non-negative decimal integer. */
  function RetryAfter(header: string): Option<nat> {
    var n := Numerals.Atoi(Text.TrimSpace(header));
    if header != "" && n.Some? && n.value >= 0 then Some(n.value) else None
  }

  function Doubled(attempt: nat): nat {
    if attempt == 0 then BASE else 2 * Doubled(attempt - 1)
  }

  /** The wait that a usable Retry-After asks for, or the jittered exponential backoff. */
  function Wait(retryAfter: Option<nat>, attempt: nat, jitter: nat): int {
    match retryAfter
    case Some(secs) => Wrap64(secs * SECOND)
    case None => (if attempt < 5 then Doubled(attempt) else MAX_WAIT) + jitter
  }

  function RetryWait(header: string, attempt: nat, jitter: nat): int {
    Wait(RetryAfter(header), attempt, jitter)
  }

  /** A timer with a negative duration fires at once. */
  function Elapsed(wait: int): nat {
    if wait < 0 then 0 else wait
  }

  /** The least time that the first `attempts` backoff waits take together. */
  function LeastDelay(attempts: nat): nat {
    if attempts == 0 then 0
    else LeastDelay(attempts - 1) + (if attempts - 1 < 5 then Doubled(attempts - 1) else MAX_WAIT)
  }

  /**
   Without a usable Retry-After a wait is at least 200 ms and below 5.2 s at every attempt, so the
   capped shift never leaves int64.
   */
  lemma BackoffBounds(attempt: nat, jitter: nat)
    requires jitter < BASE
    ensures BASE <= Wait(None, attempt, jitter) < MAX_WAIT + BASE
    ensures Numerals.IsInt64(Wait(None, attempt, jitter))
    ensures Wait(None, attempt, jitter) >= LeastDelay(attempt + 1) - LeastDelay(attempt)
  {
    assert Doubled(1) == 2 * Doubled(0) && Doubled(2) == 2 * Doubled(1);
    assert Doubled(3) == 2 * Doubled(2) && Doubled(4) == 2 * Doubled(3);
    assert Doubled(0) == BASE;
  }

  lemma {:induction false} LeastDelayClosed(attempts: nat)
    requires attempts >= 5
    ensures LeastDelay(attempts) == 31 * BASE + (attempts - 5) * MAX_WAIT
  {
    if attempts == 5 {
      assert Doubled(1) == 2 * Doubled(0) && Doubled(2) == 2 * Doubled(1);
      assert Doubled(3) == 2 * Doubled(2) && Doubled(4) == 2 * Doubled(3);
      assert LeastDelay(5) == LeastDelay(4) + Doubled(4) && LeastDelay(4) == LeastDelay(3) + Doubled(3);
      assert LeastDelay(3) == LeastDelay(2) + Doubled(2) && LeastDelay(2) == LeastDelay(1) + Doubled(1);
    } else {
      LeastDelayClosed(attempts - 1);
    }
  }

  /** A header that names whole seconds, padded or not, is honoured as it stands, at every attempt. */
  lemma HeaderInSeconds(secs: nat, attempt: nat, jitter: nat)
    requires Numerals.IsInt64(secs)
    ensures RetryAfter(Numerals.Itoa(secs)) == Some(secs)
    ensures RetryAfter(" " + Numerals.Itoa(secs) + " ") == Some(secs)
    ensures Numerals.IsInt64(secs * SECOND) ==> RetryWait(Numerals.Itoa(secs), attempt, jitter) == secs * SECOND
  {
    Numerals.AtoiOfItoa(secs);
    var header := Numerals.Itoa(secs);
    assert forall i :: 0 <= i < |header| ==> Numerals.IsDigit(header[i]) && !Text.IsSpace(header[i]);
    Text.TrimSpaceOfPadded(header);
  }

  /** The header counts exactly when it is a numeral, white space at its ends aside, and no negative one. */
  lemma RetryAfterIff(header: string, secs: nat)
    ensures RetryAfter(header) == Some(secs) <==> Numerals.Numeral(Text.TrimSpace(header), secs)
  {
    Numerals.AtoiIff(Text.TrimSpace(header), secs);
  }

  /** The backoff doubles from 200 ms up to 3.2 s and stays at 5 s from the sixth wait on, jitter on top. */
  lemma BackoffTable(attempt: nat, jitter: nat)
    ensures Wait(None, attempt, jitter) ==
      1_000_000 * (if attempt > 4 then 5000 else [200, 400, 800, 1600, 3200][attempt]) + jitter
  {
    assert Doubled(1) == 2 * Doubled(0) && Doubled(2) == 2 * Doubled(1);
    assert Doubled(3) == 2 * Doubled(2) && Doubled(4) == 2 * Doubled(3);
  }

  /**
   The wait is the Retry-After, at every attempt and without jitter, exactly while int64 nanoseconds can
   express it; one second more wraps negative.
   */
  lemma LongestHonestPause(secs: nat, attempt: nat, jitter: nat)
    ensures Wait(Some(secs), attempt, jitter) == secs * SECOND <==> secs <= 9_223_372_036
    ensures Wait(Some(9_223_372_037), attempt, jitter) < 0
  {
  }
}
