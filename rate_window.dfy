/** The fixed one-minute window both rate limiters keep per API key: a
    request counter and the time the window opened. A window is renewed
    only when strictly more than a minute has passed since it opened; every
    request is counted, allowed or not. */
module RateWindow {
  import opened Common

  /** One minute, in milliseconds. */
  const WindowMs := 60000

  /** A key's window as a value: the requests counted in it and when it opened. */
  datatype Window = Window(count: int, start: int)

  /** The window has run out at time `now`. */
  predicate Expired(w: Window, now: int)
  {
    now - w.start > WindowMs
  }

  /** ApiKeyUsage: the mutable counter and window start of one key. */
  class ApiKeyUsage {
    var requestCount: int
    var windowStartTime: int

    constructor (startTime: int)
      ensures requestCount == 0 && windowStartTime == startTime
    {
      requestCount := 0;
      windowStartTime := startTime;
    }

    /** resetWindow: a new window opening at `newStartTime`, with no requests. */
    method ResetWindow(newStartTime: int)
      modifies this
      ensures requestCount == 0 && windowStartTime == newStartTime
    {
      requestCount := 0;
      windowStartTime := newStartTime;
    }

    /** incrementAndGet: count one more request and answer the new count. */
    method IncrementAndGet() returns (count: int)
      modifies this
      ensures requestCount == old(requestCount) + 1 && windowStartTime == old(windowStartTime)
      ensures count == requestCount
    {
      requestCount := requestCount + 1;
      count := requestCount;
    }

    /** The state of this usage record as a value. */
    function Snapshot(): Window
      reads this
    {
      Window(requestCount, windowStartTime)
    }
  }

  /** A key's window, None when the key has none. */
  function Lookup(m: map<string, Window>, key: string): Option<Window>
  {
    if key in m then Some(m[key]) else None
  }

  /** The window after allowRequest at `now`: a key without one gets one
      opening at `now`; an expired one is renewed at `now`; then the
      request is counted. */
  function Admit(w: Option<Window>, now: int): (r: Window)
    ensures w.None? ==> r == Window(1, now)
    ensures w.Some? && Expired(w.value, now) ==> r == Window(1, now)
    ensures w.Some? && !Expired(w.value, now) ==> r == Window(w.value.count + 1, w.value.start)
  {
    var base := if w.None? then Window(0, now) else w.value;
    var current := if Expired(base, now) then Window(0, now) else base;
    Window(current.count + 1, current.start)
  }

  /** getRemainingRequests: the full limit for a key without a window or
      with an expired one, otherwise what is left of the limit, never
      below zero. */
  function Remaining(w: Option<Window>, limit: int, now: int): int
  {
    if w.None? || Expired(w.value, now) then limit
    else Max(0, limit - w.value.count)
  }

  /** The window after getRemainingRequests: an expired one is renewed. */
  function AfterQuery(w: Window, now: int): Window
  {
    if Expired(w, now) then Window(0, now) else w
  }

  /** getResetTimeMs: 0 for a key without a window, otherwise the time left
      until a minute after the window opened, never below zero. */
  function ResetTime(w: Option<Window>, now: int): int
  {
    if w.None? then 0 else Max(0, w.value.start + WindowMs - now)
  }

  // ---------------------------------------------------------------------
  // Properties

  /** A run of requests at the given times: the final window and how many
      were allowed. */
  datatype Run = Run(window: Window, allowed: nat)

  function Requests(w: Window, limit: int, times: seq<int>): Run
  {
    if |times| == 0 then Run(w, 0)
    else
      var before := Requests(w, limit, times[..|times| - 1]);
      var after := Admit(Some(before.window), times[|times| - 1]);
      Run(after, before.allowed + if after.count <= limit then 1 else 0)
  }

  /** Within one window (no request comes more than a minute after it
      opened), every request is counted and exactly the first
      limit - count of them are allowed: at most `limit` per window. */
  lemma {:induction false} AtMostLimitPerWindow(w: Window, limit: int, times: seq<int>)
    requires w.count >= 0
    requires forall i :: 0 <= i < |times| ==> !Expired(w, times[i])
    ensures Requests(w, limit, times).window == Window(w.count + |times|, w.start)
    ensures Requests(w, limit, times).allowed == Min(|times|, Max(0, limit - w.count))
  {
    if |times| > 0 {
      AtMostLimitPerWindow(w, limit, times[..|times| - 1]);
    }
  }

  /** A fresh window admits at most `limit` requests in its minute. */
  lemma FreshWindowAdmitsLimit(start: int, limit: int, times: seq<int>)
    requires forall i :: 0 <= i < |times| ==> times[i] - start <= WindowMs
    ensures Requests(Window(0, start), limit, times).allowed <= Max(0, limit)
  {
    AtMostLimitPerWindow(Window(0, start), limit, times);
  }

  /** Right after a denied request nothing remains; right after an allowed
      one, what remains is the limit less the requests counted. */
  lemma RemainingAfterAdmit(w: Option<Window>, limit: int, now: int)
    ensures var a := Admit(w, now);
      (a.count > limit ==> Remaining(Some(a), limit, now) == 0) &&
      (a.count <= limit ==> Remaining(Some(a), limit, now) == limit - a.count)
  {
  }

  /** What remains lies between 0 and the limit. */
  lemma RemainingBounds(w: Option<Window>, limit: int, now: int)
    requires limit >= 0 && (w.Some? ==> w.value.count >= 0)
    ensures 0 <= Remaining(w, limit, now) <= limit
  {
  }

  /** The reset time is never negative and at most a minute once the window
      has opened; a positive reset time means the window is still running,
      and an expired window reports 0. */
  lemma ResetTimeBounds(w: Option<Window>, now: int)
    ensures ResetTime(w, now) >= 0
    ensures w.Some? && now >= w.value.start ==> ResetTime(w, now) <= WindowMs
    ensures ResetTime(w, now) > 0 ==> w.Some? && !Expired(w.value, now)
    ensures w.Some? && Expired(w.value, now) ==> ResetTime(w, now) == 0
  {
  }
}
