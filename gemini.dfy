/**
 * The retry loop both backend analyzers wrap around a Gemini call. The service itself is
 * outside the model: `respond(k)` is what the call made on attempt `k` yields (`None` when it
 * raises, the reply text otherwise, "" for an empty reply), and each `time.sleep` is recorded
 * as the number of seconds it waits.
 */
module Gemini {
  import opened Wrappers
  import opened Text

  /** A call that produced text the loop returns: it did not raise and its text is not empty. */
  predicate Answered(reply: Option<string>) {
    reply.Some? && reply.value != []
  }

  /**
   * `_gemini_text`: up to `retries` attempts, returning the first non-empty reply. After every
   * failed attempt but the last the loop sleeps `3 * (attempt + 1)` seconds. When no attempt
   * answers, the result is "".
   */
  method GeminiText(respond: nat -> Option<string>, retries: int)
    returns (text: string, calls: nat, waits: seq<nat>)
    ensures calls <= CountBelow(retries)
    ensures forall k | 0 <= k < calls - 1 :: !Answered(respond(k))
    ensures text != [] ==> calls >= 1 && respond(calls - 1) == Some(text)
    ensures text == [] ==> calls == CountBelow(retries) && forall k | 0 <= k < calls :: !Answered(respond(k))
    ensures |waits| == (if calls == 0 then 0 else calls - 1)
    ensures forall k | 0 <= k < |waits| :: waits[k] == 3 * (k + 1)
  {
    var n := CountBelow(retries);
    calls := 0;
    waits := [];
    while calls < n
      invariant calls <= n
      invariant forall k | 0 <= k < calls :: !Answered(respond(k))
      invariant |waits| == (if calls < n || calls == 0 then calls else calls - 1)
      invariant forall k | 0 <= k < |waits| :: waits[k] == 3 * (k + 1)
    {
      var reply := respond(calls);
      calls := calls + 1;
      if Answered(reply) {
        return reply.value, calls, waits;
      }
      if calls < n {
        waits := waits + [3 * calls];
      }
    }
    return "", calls, waits;
  }
}
