/** The ragchat RateLimiter: a window per API key, a default limit per
    minute and per-key custom limits that can be set and removed. The
    clock is the `now` parameter; the limiter is used by one thread at a
    time. */
module RagchatRateLimit {
  import opened Common
  import opened RateWindow

  class RateLimiter {
    var usageMap: map<string, ApiKeyUsage>
    var customLimits: map<string, int>
    const defaultMaxRequestsPerMinute: int

    constructor (defaultMaxRequestsPerMinute: int)
      ensures Valid()
      ensures usageMap == map[] && customLimits == map[]
      ensures this.defaultMaxRequestsPerMinute == defaultMaxRequestsPerMinute
    {
      usageMap := map[];
      customLimits := map[];
      this.defaultMaxRequestsPerMinute := defaultMaxRequestsPerMinute;
    }

    /** Every key has its own usage record. */
    ghost predicate Valid()
      reads this
    {
      forall k1, k2 :: k1 in usageMap && k2 in usageMap && k1 != k2 ==> usageMap[k1] != usageMap[k2]
    }

    /** The keys' windows as values. */
    function Windows(): map<string, Window>
      reads this, usageMap.Values
    {
      map k | k in usageMap :: usageMap[k].Snapshot()
    }

    /** getRateLimit: the key's custom limit if it has one, else the default. */
    function GetRateLimit(apiKey: string): int
      reads this
    {
      GetOrDefault(customLimits, apiKey, defaultMaxRequestsPerMinute)
    }

    /** setCustomRateLimit: a positive value becomes the key's limit; any
        other value removes the key's custom limit, so the default applies
        again. No other key's limit changes. */
    method SetCustomRateLimit(apiKey: string, requestsPerMinute: int)
      modifies this
      ensures usageMap == old(usageMap)
      ensures customLimits == if requestsPerMinute > 0 then old(customLimits)[apiKey := requestsPerMinute]
                              else old(customLimits) - {apiKey}
      ensures GetRateLimit(apiKey) == if requestsPerMinute > 0 then requestsPerMinute else defaultMaxRequestsPerMinute
      ensures forall k :: k != apiKey ==> GetRateLimit(k) == old(GetRateLimit(k))
    {
      if requestsPerMinute > 0 {
        customLimits := customLimits[apiKey := requestsPerMinute];
      } else {
        customLimits := customLimits - {apiKey};
      }
    }

    /** allowRequest: the key's window is opened or renewed as needed, the
        request is counted, and it is allowed when the count stays within
        the key's limit. Only this key's window changes. */
    method AllowRequest(apiKey: string, now: int) returns (allowed: bool)
      requires Valid()
      modifies this, usageMap.Values
      ensures Valid()
      ensures customLimits == old(customLimits) && usageMap.Keys == old(usageMap.Keys) + {apiKey}
      ensures fresh(usageMap.Values - old(usageMap.Values))
      ensures Windows() == old(Windows())[apiKey := Admit(Lookup(old(Windows()), apiKey), now)]
      ensures allowed <==> Windows()[apiKey].count <= GetRateLimit(apiKey)
    {
      ghost var before := Windows();
      ghost var w := Lookup(before, apiKey);
      var usage: ApiKeyUsage;
      if apiKey in usageMap {
        usage := usageMap[apiKey];
      } else {
        usage := new ApiKeyUsage(now);
        usageMap := usageMap[apiKey := usage];
      }
      assert Valid();
      assert usage.Snapshot() == if w.None? then Window(0, now) else w.value;
      var limit := GetRateLimit(apiKey);
      if now - usage.windowStartTime > WindowMs {
        usage.ResetWindow(now);
      }
      var count := usage.IncrementAndGet();
      allowed := count <= limit;
      ghost var after := Windows();
      ghost var expected := before[apiKey := Admit(w, now)];
      assert after.Keys == expected.Keys;
      forall k | k in after
        ensures after[k] == expected[k]
      {
        if k != apiKey {
          assert usageMap[k] != usage;
        }
      }
    }

    /** getRemainingRequests: what is left of the key's limit in its
        window. An expired window is renewed; a key without a window gets
        none. */
    method GetRemainingRequests(apiKey: string, now: int) returns (remaining: int)
      requires Valid()
      modifies usageMap.Values
      ensures Valid()
      ensures usageMap == old(usageMap) && customLimits == old(customLimits)
      ensures remaining == Remaining(Lookup(old(Windows()), apiKey), GetRateLimit(apiKey), now)
      ensures Windows() == if apiKey in usageMap then old(Windows())[apiKey := AfterQuery(old(Windows())[apiKey], now)]
                           else old(Windows())
    {
      var limit := GetRateLimit(apiKey);
      if apiKey !in usageMap {
        return limit;
      }
      var usage := usageMap[apiKey];
      if now - usage.windowStartTime > WindowMs {
        usage.ResetWindow(now);
        remaining := limit;
      } else {
        remaining := Max(0, limit - usage.requestCount);
      }
      forall k | k in usageMap && k != apiKey
        ensures usageMap[k].Snapshot() == old(Windows())[k]
      {
        assert usageMap[k] != usage;
      }
    }

    /** getResetTimeMs: the time until the key's window runs out, 0 for a
        key without a window. */
    function GetResetTimeMs(apiKey: string, now: int): (ms: int)
      reads this, usageMap.Values
      ensures ms == ResetTime(Lookup(Windows(), apiKey), now)
    {
      if apiKey !in usageMap then 0
      else Max(0, usageMap[apiKey].windowStartTime + WindowMs - now)
    }
  }
}
