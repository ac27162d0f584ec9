/** RateLimitFilter: in front of every keyed request that is not for the
    API documentation or the health endpoint, it counts the request with
    the chat rate limiter and either answers 429 or adds the rate-limit
    headers and lets the request go on. The three clock reads of one
    request are taken as one instant `now`. */
module RateLimitFilter {
  import opened Common
  import opened RateWindow
  import ChatRateLimit

  const LimitHeader := "X-RateLimit-Limit"
  const RemainingHeader := "X-RateLimit-Remaining"
  const ResetHeader := "X-RateLimit-Reset"
  const TooManyRequests := 429

  /** What the filter does with a request: the status it sets (None when it
      sets none), the rate-limit headers it sets with their numeric values,
      and whether the request goes on down the chain. */
  datatype Response = Response(status: Option<int>, headers: map<string, int>, chained: bool)

  /** One request through the filter: the response and the key windows after it. */
  datatype Step = Step(response: Response, windows: map<string, Window>)

  /** The rate-limit headers: the limit, what remains, and the seconds until
      the window runs out (whole seconds, rounded down). */
  function Headers(limit: int, remaining: int, resetMs: int): map<string, int>
  {
    map[LimitHeader := limit, RemainingHeader := remaining, ResetHeader := resetMs / 1000]
  }

  /** doFilterInternal over the limiter's windows and its limit. */
  function Decide(path: string, apiKey: Option<string>, windows: map<string, Window>, limit: int, now: int): Step
  {
    if ExemptPath(path) || apiKey.None? then Step(Response(None, map[], true), windows)
    else
      var key := apiKey.value;
      var w := Admit(Lookup(windows, key), now);
      var after := windows[key := w];
      if w.count > limit then
        Step(Response(Some(TooManyRequests), Headers(limit, 0, ResetTime(Some(w), now)), false), after)
      else
        Step(Response(None, Headers(limit, Remaining(Some(w), limit, now), ResetTime(Some(w), now)), true), after)
  }

  class RateLimitFilter {
    const rateLimiter: ChatRateLimit.RateLimiter

    constructor (rateLimiter: ChatRateLimit.RateLimiter)
      ensures this.rateLimiter == rateLimiter
    {
      this.rateLimiter := rateLimiter;
    }

    /** doFilterInternal: the response, and the limiter's windows change as
        Decide says. */
    method DoFilter(path: string, apiKey: Option<string>, now: int) returns (response: Response)
      requires rateLimiter.Valid()
      modifies rateLimiter, rateLimiter.usageMap.Values
      ensures rateLimiter.Valid()
      ensures var step := Decide(path, apiKey, old(rateLimiter.Windows()), rateLimiter.defaultMaxRequestsPerMinute, now);
        response == step.response && rateLimiter.Windows() == step.windows
    {
      if ExemptPath(path) {
        return Response(None, map[], true);
      }
      if apiKey.None? {
        return Response(None, map[], true);
      }
      var key := apiKey.value;
      var allowed := rateLimiter.AllowRequest(key, now);
      if !allowed {
        var limit := rateLimiter.GetRateLimit(key);
        var resetTimeMs := rateLimiter.GetResetTimeMs(key, now);
        return Response(Some(TooManyRequests), Headers(limit, 0, resetTimeMs), false);
      }
      var limit := rateLimiter.GetRateLimit(key);
      var remaining := rateLimiter.GetRemainingRequests(key, now);
      var resetTimeMs := rateLimiter.GetResetTimeMs(key, now);
      response := Response(None, Headers(limit, remaining, resetTimeMs), true);
    }
  }

  // ---------------------------------------------------------------------
  // Properties

  /** Exempt paths and requests without a key go on untouched and are not
      counted. */
  lemma PassThroughUncounted(path: string, apiKey: Option<string>, windows: map<string, Window>, limit: int, now: int)
    requires ExemptPath(path) || apiKey.None?
    ensures Decide(path, apiKey, windows, limit, now) == Step(Response(None, map[], true), windows)
  {
  }

  /** A keyed request on any other path is counted once against its key
      and nothing else changes; it is refused exactly when the count goes
      over the limit, and then answers 429 with nothing remaining; when it
      goes on, the headers say what remains of the limit, never below zero.
      The reset is never negative, and it lies within the minute unless the
      clock went back past the window's start. */
  lemma KeyedRequest(path: string, key: string, windows: map<string, Window>, limit: int, now: int)
    requires !ExemptPath(path)
    ensures var step := Decide(path, Some(key), windows, limit, now);
      var w := Admit(Lookup(windows, key), now);
      step.windows == windows[key := w] &&
      (!step.response.chained <==> w.count > limit) &&
      (!step.response.chained ==>
        step.response.status == Some(TooManyRequests) && step.response.headers[RemainingHeader] == 0) &&
      (step.response.chained ==>
        step.response.status.None? &&
        step.response.headers[RemainingHeader] == limit - w.count >= 0) &&
      step.response.headers[LimitHeader] == limit &&
      0 <= step.response.headers[ResetHeader] &&
      ((key in windows ==> windows[key].start <= now) ==> step.response.headers[ResetHeader] <= WindowMs / 1000)
  {
    var w := Admit(Lookup(windows, key), now);
    RemainingAfterAdmit(Lookup(windows, key), limit, now);
    ResetTimeBounds(Some(w), now);
  }

  /** The clock went back: a window opened at 100000 ms seen at 0 ms is not
      renewed, and the filter announces a reset 160 seconds away. */
  lemma BackwardClockReset()
    ensures var step := Decide("/api", Some("k"), map["k" := Window(0, 100000)], 5, 0);
      step.response.chained && step.response.headers[ResetHeader] == 160
  {
    var w := Admit(Some(Window(0, 100000)), 0);
    assert w == Window(1, 100000);
    assert ResetTime(Some(w), 0) == 160000;
  }
}
